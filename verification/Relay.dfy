/**
 * One client connection relayed over an upstream channel that is not HTTP/2: an HTTPS proxy, a
 * SOCKS4/4A/5 server or a Shadowsocks server.
 *
 * Every handler runs to its return before the event loop delivers the next event. Results of
 * I/O calls are chosen freely: any length may be read or written, any call may report
 * "try again" or fail.
 */
module Relay {
  import opened Bytes
  import opened Shadowsocks
  import opened UpstreamMessages
  import opened UpstreamHistory
  import opened DownstreamHistory
  import RequestParsers

  const kYieldAfterBytesRead: nat := 32 * 1024
  const kMaxHeaderSize: nat := 1024 * 1024 + 1024

  /** `TryAgain` is try_again and would_block; `Failed` is end of file and every hard error. */
  datatype Error = NoError | TryAgain | Failed

  datatype State = StateStream | StateError

  /** The upstream channel: not established yet, established, or closed for good. */
  datatype Stage = Connecting | Connected | Lost

  method WriteSome(buf: Bytes) returns (written: nat, ec: Error)
    ensures written <= |buf| && (ec != NoError ==> written == 0)
  {
    written, ec := *, *;
    if written > |buf| || ec != NoError {
      written := 0;
    }
  }

  method ReadSome() returns (data: Bytes, ec: Error)
    ensures |data| <= SOCKET_BUF_SIZE && (ec == NoError <==> data != [])
  {
    data, ec := *, *;
    if |data| > SOCKET_BUF_SIZE {
      data := data[..SOCKET_BUF_SIZE];
    }
    if ec != NoError {
      data := [];
    } else if data == [] {
      ec := TryAgain;
    }
  }

  function Count(b: bool): nat {
    if b then 1 else 0
  }

  /** How often a kind of socket call has met an obstacle, and how often it has failed for good. */
  datatype Tally = Tally(blocked: nat, failed: nat)
  {
    function Add(blocks: bool, fails: bool): Tally {
      Tally(blocked + Count(blocks), failed + Count(fails))
    }
  }

  /** Waits on the client's side and on the channel that have ended with an error; whether the channel came up. */
  datatype Waits = Waits(client: nat, channel: nat, established: bool)

  /** `away` is more than may be kept behind `kept`. */
  ghost predicate OverLimit(kept: seq<Bytes>, away: Bytes) {
    |Flat(kept)| + |away| > kMaxHeaderSize
  }

  /** A request that cannot be written: SOCKS4 knows no IPv6. */
  predicate Unaskable(cfg: Config) {
    cfg.upstream.Socks4? && cfg.dest.Ipv6?
  }

  function FlagSlots(methodSelect: bool, authWait: bool): nat {
    (if methodSelect then 1 else 0) + (if authWait then 1 else 0)
  }

  /**
   * Every client byte is passed on or kept, in order, and what is kept is bounded. All that came
   * from the client is accounted for but `news`, just read, and `away`, what closed the connection.
   */
  ghost predicate Accounted(client: Bytes, forwarded: Bytes, kept: seq<Bytes>, from: Bytes, news: Bytes, away: Bytes) {
    forall k :: Opened(k, (client, forwarded, kept, from, news, away)) ==>
      && client == forwarded + Flat(kept) && |Flat(kept)| <= kMaxHeaderSize && NoEmpty(kept)
      && from == client + news + away && (away != [] ==> OverLimit(kept, away))
  }

  lemma AccountedFacts(client: Bytes, forwarded: Bytes, kept: seq<Bytes>, from: Bytes, news: Bytes, away: Bytes)
    requires Accounted(client, forwarded, kept, from, news, away)
    ensures client == forwarded + Flat(kept) && |Flat(kept)| <= kMaxHeaderSize && NoEmpty(kept)
    ensures from == client + news + away && (away != [] ==> OverLimit(kept, away))
  {
    assert Opened(0, (client, forwarded, kept, from, news, away));
  }

  lemma ReadAccounted(client: Bytes, forwarded: Bytes, kept: seq<Bytes>, from: Bytes, data: Bytes)
    requires Accounted(client, forwarded, kept, from, [], [])
    ensures Accounted(client, forwarded, kept, from + data, data, [])
  {
    AccountedFacts(client, forwarded, kept, from, [], []);
    assert client + [] + [] == client && client + data + [] == client + data;
  }

  lemma AwayAccounted(client: Bytes, forwarded: Bytes, kept: seq<Bytes>, from: Bytes, data: Bytes)
    requires Accounted(client, forwarded, kept, from, data, []) && OverLimit(kept, data)
    ensures Accounted(client, forwarded, kept, from, [], data)
  {
    AccountedFacts(client, forwarded, kept, from, data, []);
    assert client + data + [] == client + [] + data;
  }

  lemma KeepAccounted(client: Bytes, forwarded: Bytes, kept: seq<Bytes>, from: Bytes, data: Bytes)
    requires Accounted(client, forwarded, kept, from, data, []) && |Flat(kept)| + |data| <= kMaxHeaderSize && data != []
    ensures Accounted(client + data, forwarded, kept + [data], from, [], [])
  {
    AccountedFacts(client, forwarded, kept, from, data, []);
    FlatPush(kept, data);
    Regroup(forwarded, Flat(kept), data);
    assert client + data + [] + [] == client + data + [];
  }

  lemma ForwardAccounted(client: Bytes, forwarded: Bytes, from: Bytes, data: Bytes)
    requires Accounted(client, forwarded, [], from, data, [])
    ensures Accounted(client + data, forwarded + data, [], from, [], [])
  {
    AccountedFacts(client, forwarded, [], from, data, []);
    assert forwarded + [] == forwarded && forwarded + data + [] == forwarded + data;
    assert client + data + [] + [] == client + data + [];
  }

  lemma ReplayAccounted(client: Bytes, forwarded: Bytes, kept: seq<Bytes>, from: Bytes)
    requires Accounted(client, forwarded, kept, from, [], []) && kept != []
    ensures kept[0] != [] && Accounted(client, forwarded + kept[0], kept[1..], from, [], [])
  {
    AccountedFacts(client, forwarded, kept, from, [], []);
    Regroup(forwarded, kept[0], Flat(kept[1..]));
  }

  /** `a + b`, in a form that is `a` when there is no `b`. */
  ghost function Plus(a: Bytes, b: Bytes): Bytes {
    if b == [] then a else a + b
  }

  class CliConnection {
    const cfg: Config

    var state: State
    var closed: bool
    var shutdown: bool

    /** Bytes for the client, and whether a downlink-writable wait is outstanding. */
    var downstream: seq<Bytes>
    var writeInProgress: bool

    /** Whether a client-readable wait, or a posted retry of one, is outstanding. */
    var readInProgress: bool
    var pendingData: seq<Bytes>

    /** Bytes for the server, and whether a channel-writable wait may be armed. */
    var upstream: seq<Bytes>
    var upstreamWritable: bool
    var encoder: Encoder
    var decoder: Decoder

    var methodSelectHandshake: bool
    var authHandshake: bool
    var socksHandshake: bool
    var httpsHandshake: bool

    /** The channel, and its outstanding readable and writable waits. */
    var stage: Stage
    var chReading: bool
    var chWriting: bool

    /** What went through the sockets; only the calls that read and write them add to it. */
    ghost var fromClient: Bytes
    ghost var toServer: Bytes
    ghost var fromServer: Bytes
    ghost var sentDown: Bytes

    /** What the event loop has reported. */
    ghost var waits: Waits

    /** How the socket calls went: nothing to read, not all of a buffer taken, or a failure. */
    ghost var clientDry: Tally
    ghost var channelFull: Tally
    ghost var serverDry: Tally
    ghost var clientFull: Tally

    /** What was ever queued for the client, half-closes of it, and what the server's bytes were for. */
    ghost var pushedDown: Bytes
    ghost var shutdowns: nat
    ghost var down: Received

    /** The client's bytes that are passed on or kept, and what became of them. */
    ghost var client: Bytes
    ghost var turnedAway: Bytes
    ghost var up: History

    ghost predicate DownSafe()
      reads this
    {
      && Fifo(sentDown, downstream, pushedDown)
      && (writeInProgress ==> downstream != [])
      && shutdowns == (if shutdown then 1 else 0)
      && (shutdown ==> downstream == [] && stage == Lost)
      && (closed ==> stage == Lost)
      && (state == StateError ==> closed)
      && (closed ==> WhyClosed()) && (stage == Lost ==> WhyLost())
    }

    /** A reason to close: a side that is gone, too many early bytes, or a request that cannot be asked. */
    ghost predicate WhyClosed()
      reads this
    {
      || clientDry.failed + clientFull.failed + channelFull.failed > 0 || waits.client > 0
      || turnedAway != [] || (waits.established && Unaskable(cfg))
    }

    /** A reason to give up the channel: it failed, or what the server sends is not to be had. */
    ghost predicate WhyLost()
      reads this
    {
      WhyClosed() || serverDry.failed > 0 || waits.channel > 0 || down.refused != []
    }

    /** A write to the client that fails closes the connection. */
    twostate predicate FailedWriteCloses()
      reads this
    {
      clientFull.failed >= old(clientFull).failed && (clientFull.failed > old(clientFull).failed ==> closed)
    }

    ghost predicate UpSafe()
      reads this
    {
      && Ordered(cfg, upstream, encoder, up)
      && (stage == Connected ==> up.slots == FlagSlots(methodSelectHandshake, authHandshake))
      && (methodSelectHandshake && stage == Connected ==> up.slots == cfg.FirstSlots())
      && (authHandshake && stage == Connected ==> cfg.AuthRequired())
      && (stage == Connecting ==> !up.greeted && !methodSelectHandshake && !authHandshake && httpsHandshake)
      && (chWriting ==> upstream != [] && !upstreamWritable)
      && toServer == up.sent
    }

    /**
     * What holds inside every handler. `news` has just been read from the client and `rest` from
     * the server, and neither has been dealt with yet.
     */
    ghost predicate Safe(news: Bytes := [], rest: Bytes := [])
      reads this
    {
      SafeButFailed(news, rest) && (stage != Lost ==> Clean())
    }

    /** Nothing has failed and nothing was refused. */
    ghost predicate Clean()
      reads this
    {
      && clientDry.failed == 0 && clientFull.failed == 0 && channelFull.failed == 0 && serverDry.failed == 0
      && waits.client == 0 && waits.channel == 0 && down.refused == []
    }

    /** The same while a failure is not heeded yet. */
    ghost predicate SafeButFailed(news: Bytes := [], rest: Bytes := [])
      reads this
    {
      && DownSafe()
      && UpSafe()
      && ClientSafe(news)
      && (stage == Connected ==> pendingData == [] && up.greeted && waits.established && !Unaskable(cfg))
      && (stage == Connecting ==> !waits.established)
      && RelaySafe(rest)
    }

    /** No client byte is lost, unless the connection is closed for it. */
    ghost predicate ClientSafe(news: Bytes := [])
      reads this
    {
      Accounted(client, up.forwarded, pendingData, fromClient, news, turnedAway) && (turnedAway != [] ==> closed)
    }

    /** The server's answers are all in: what it sends now is for the client. */
    predicate Negotiated()
      reads this
    {
      AllAnswered(cfg, methodSelectHandshake, authHandshake, socksHandshake, httpsHandshake)
    }

    ghost predicate RelaySafe(rest: Bytes := [])
      reads this
    {
      && Logged(cfg, decoder, down, pushedDown, fromServer, rest, up.greeted)
      && (stage == Connected && up.greeted ==>
            InStep(cfg, down, methodSelectHandshake, authHandshake, socksHandshake, httpsHandshake))
    }

    // ------------------------------------------------------------ the sockets

    method DownlinkReadSome() returns (data: Bytes, ec: Error)
      modifies this`fromClient, this`clientDry
      ensures |data| <= SOCKET_BUF_SIZE && (ec == NoError <==> data != [])
      ensures fromClient == Plus(old(fromClient), data)
      ensures clientDry == old(clientDry).Add(ec == TryAgain, ec == Failed)
      ensures turnedAway == [] && old(ClientSafe()) ==> ClientSafe(data)
    {
      data, ec := ReadSome();
      if turnedAway == [] && ClientSafe() {
        ReadAccounted(client, up.forwarded, pendingData, fromClient, data);
      }
      fromClient := Plus(fromClient, data);
      clientDry := clientDry.Add(ec == TryAgain, ec == Failed);
    }

    method DownlinkWriteSome(buf: Bytes) returns (written: nat, ec: Error)
      modifies this`sentDown, this`clientFull
      ensures written <= |buf| && (ec != NoError ==> written == 0)
      ensures sentDown == old(sentDown) + buf[..written]
      ensures clientFull == old(clientFull).Add(written < |buf|, ec == Failed)
    {
      written, ec := WriteSome(buf);
      if closed {
        written, ec := 0, Failed;
      }
      sentDown := sentDown + buf[..written];
      clientFull := clientFull.Add(written < |buf|, ec == Failed);
    }

    method ChannelWriteSome(buf: Bytes) returns (written: nat, ec: Error)
      modifies this`toServer, this`channelFull
      ensures written <= |buf| && (ec != NoError ==> written == 0)
      ensures toServer == old(toServer) + buf[..written]
      ensures channelFull == old(channelFull).Add(written < |buf|, ec == Failed)
    {
      written, ec := WriteSome(buf);
      toServer := toServer + buf[..written];
      channelFull := channelFull.Add(written < |buf|, ec == Failed);
    }

    /**
     * The server answers a negotiation message only after it has got all of it, and then with the
     * two bytes of the answer.
     */
    method ChannelReadSome() returns (data: Bytes, ec: Error)
      modifies this`fromServer, this`serverDry
      ensures ec == NoError <==> data != []
      ensures fromServer == Plus(old(fromServer), data) && serverDry == old(serverDry).Add(ec == TryAgain, ec == Failed)
      ensures old(RelaySafe()) ==> RelaySafe(data)
      ensures ec == NoError && (methodSelectHandshake || authHandshake) ==>
        upstream != [] && upstream[0] == [] && |data| <= 2
    {
      data, ec := ReadSome();
      if methodSelectHandshake || authHandshake {
        if upstream == [] || upstream[0] != [] {
          data := [];
        } else if |data| > 2 {
          data := data[..2];
        }
        if data == [] && ec == NoError {
          ec := TryAgain;
        }
      }
      if RelaySafe() {
        LoggedRead(cfg, decoder, down, pushedDown, fromServer, data, up.greeted);
      }
      fromServer := Plus(fromServer, data);
      serverDry := serverDry.Add(ec == TryAgain, ec == Failed);
    }

    /** A read from the channel between two steps. */
    method TakePiece() returns (data: Bytes, ec: Error)
      requires Safe() && stage == Connected
      modifies this`fromServer, this`serverDry
      ensures ec == NoError <==> data != []
      ensures fromServer == Plus(old(fromServer), data) && serverDry == old(serverDry).Add(ec == TryAgain, ec == Failed)
      ensures ec == NoError && (methodSelectHandshake || authHandshake) ==>
        upstream != [] && upstream[0] == [] && |data| <= 2
      ensures if ec == Failed then SafeButFailed() else Safe([], data)
    {
      data, ec := ChannelReadSome();
    }

    // ------------------------------------------------------------ closing

    method Close()
      modifies this`closed, this`stage
      ensures closed && stage == Lost
    {
      closed := true;
      stage := Lost;
    }

    method OnDisconnect()
      modifies this`closed, this`stage
      ensures closed && stage == Lost
    {
      Close();
    }

    // ------------------------------------------------------------ towards the client

    /** How the waits of this direction stand when nothing is being processed. */
    ghost predicate DownWaits()
      reads this
    {
      && (!closed ==> writeInProgress == (downstream != []))
      && (stage == Connected ==> chReading == (downstream == []))
      && (stage == Lost && !closed && downstream == [] ==> shutdown)
    }

    /** One `write_some` on the downlink; a buffer leaves the queue only when fully written. */
    method WriteFront() returns (written: nat, ec: Error)
      requires Fifo(sentDown, downstream, pushedDown) && downstream != []
      modifies this`downstream, this`sentDown, this`clientFull
      ensures Fifo(sentDown, downstream, pushedDown)
      ensures |downstream| <= |old(downstream)| && (ec != NoError ==> downstream != [])
      ensures ec == NoError ==> written > 0 && |downstream| < |old(downstream)|
      ensures |sentDown| == |old(sentDown)| + written && clientFull == old(clientFull).Add(ec != NoError, ec == Failed)
    {
      var buf := downstream[0];
      ghost var sent := sentDown;
      written, ec := DownlinkWriteSome(buf);
      FifoFacts(sent, downstream, pushedDown);
      FifoWrite(sent, downstream, pushedDown, written);
      downstream := AfterWrite(downstream, written);
      if ec == NoError && written < |buf| {
        ec := TryAgain;
      }
    }

    /** The write loop: everything up to the first obstacle goes to the socket, in order. */
    method WriteDownstream() returns (tryAgain: bool, ec: Error, written: nat)
      requires Fifo(sentDown, downstream, pushedDown)
      modifies this`downstream, this`sentDown, this`clientFull
      ensures Fifo(sentDown, downstream, pushedDown) && |downstream| <= |old(downstream)|
      ensures tryAgain == (ec == NoError) == (downstream == [])
      ensures tryAgain ==> (written > 0 <==> old(downstream) != [])
      ensures |sentDown| == |old(sentDown)| + written
      ensures downstream != [] ==> written > 0 || clientFull.blocked > old(clientFull).blocked
      ensures clientFull.failed == old(clientFull).failed + Count(ec == Failed)
    {
      tryAgain, ec, written := false, NoError, 0;
      while true
        invariant Fifo(sentDown, downstream, pushedDown) && !tryAgain && ec == NoError
        invariant written > 0 <==> downstream != old(downstream)
        invariant |downstream| <= |old(downstream)| && |sentDown| == |old(sentDown)| + written
        invariant clientFull.blocked >= old(clientFull).blocked && clientFull.failed == old(clientFull).failed
        decreases |downstream|
      {
        if downstream == [] {
          tryAgain := true;
          break;
        }
        var n;
        n, ec := WriteFront();
        written := written + n;
        if ec != NoError {
          break;
        }
        var late: bool := *;
        if written > kYieldAfterBytesRead || late {
          if downstream == [] {
            tryAgain := true;
          } else {
            ec := TryAgain;
          }
          break;
        }
      }
    }

    /** All but what writing to the client works on. */
    twostate predicate UpSame()
      reads this
    {
      unchanged(this`readInProgress, this`pendingData, this`upstream, this`upstreamWritable, this`encoder, this`decoder,
                this`methodSelectHandshake, this`authHandshake, this`socksHandshake, this`httpsHandshake,
                this`chWriting, this`fromClient, this`toServer, this`fromServer, this`clientDry, this`channelFull,
                this`serverDry, this`waits, this`pushedDown, this`down, this`client, this`turnedAway, this`up)
    }

    /** Writing to the client keeps what is safe. */
    twostate lemma WritingIsSafe()
      requires old(Safe()) && DownSafe() && UpSame() && FailedWriteCloses()
      requires (stage == old(stage) || (closed && stage == Lost)) && (old(closed) ==> closed)
      ensures Safe()
    {
    }

    /** Whether a flush would still have something to start. */
    ghost function Unflushed(): nat
      reads this
    {
      if downstream != [] && !writeInProgress then 1 else 0
    }

    method WriteStream()
      requires DownSafe()
      modifies this`downstream, this`sentDown, this`clientFull, this`writeInProgress, this`chReading, this`shutdown,
               this`shutdowns, this`state, this`closed, this`stage
      ensures DownSafe() && (stage == old(stage) || (closed && stage == Lost)) && (old(closed) ==> closed)
      ensures FailedWriteCloses()
      ensures old(writeInProgress) ==> writeInProgress && unchanged(this`stage, this`closed, this`chReading)
      ensures old(stage) != Connected ==> chReading == old(chReading)
      ensures !old(writeInProgress) && old(downstream) != [] ==>
        |sentDown| > |old(sentDown)| || clientFull.blocked > old(clientFull).blocked
      ensures
        && !old(writeInProgress)
        && (old(stage) == Connected ==> !old(chReading))
        && (old(stage) == Lost && old(downstream) == [] ==> old(shutdown))
        ==> DownWaits()
      decreases 1, 4
    {
      if writeInProgress {
        return;
      }
      var tryAgain, ec, written := WriteDownstream();
      if tryAgain && stage == Connected && !chReading {
        ReadUpstreamAsync();
      }
      if ec == TryAgain {
        WriteStreamAsync();
        if written == 0 {
          return;
        }
        ec := NoError;
      }
      ProcessSentData(ec, written);
    }

    method WriteStreamAsync()
      requires !writeInProgress
      modifies this`writeInProgress
      ensures writeInProgress
    {
      writeInProgress := true;
    }

    method ReadUpstreamAsync()
      requires stage == Connected && !chReading
      modifies this`chReading
      ensures chReading
    {
      chReading := true;
    }

    method ProcessSentData(result: Error, written: nat)
      requires DownSafe() && result != TryAgain
      requires if result == NoError then Unflushed() == 0 else WhyClosed()
      modifies this`downstream, this`sentDown, this`clientFull, this`writeInProgress, this`chReading, this`shutdown,
               this`shutdowns, this`state, this`closed, this`stage
      ensures DownSafe()
      ensures unchanged(this`downstream, this`sentDown, this`clientFull, this`writeInProgress, this`chReading)
      ensures if result == Failed || old(closed) then closed else !closed && stage == old(stage)
      ensures old(shutdown) ==> shutdown
      ensures !closed && written > 0 && stage == Lost && downstream == [] ==> shutdown
      decreases (if result == NoError then Unflushed() else 0), 8
    {
      var ec := result;
      if ec == NoError {
        match state {
          case StateStream =>
            if written > 0 {
              OnStreamWrite();
            }
          case StateError =>
            ec := Failed;
        }
      }
      if ec != NoError {
        state := StateError;
        OnDisconnect();
      }
    }

    /** Half-closes towards the client once the channel is gone and the last byte is out. */
    method OnStreamWrite()
      requires DownSafe() && Unflushed() == 0
      modifies this`downstream, this`sentDown, this`clientFull, this`writeInProgress, this`chReading, this`shutdown,
               this`shutdowns, this`state, this`closed, this`stage
      ensures DownSafe()
      ensures unchanged(this`downstream, this`sentDown, this`clientFull, this`writeInProgress, this`chReading,
                        this`state, this`closed, this`stage)
      ensures old(shutdown) ==> shutdown
      ensures stage == Lost && downstream == [] ==> shutdown
      decreases Unflushed(), 7
    {
      OnDownstreamWriteFlush();
      if stage == Lost && downstream == [] && !shutdown {
        ShutdownDownlink();
      }
    }

    method ShutdownDownlink()
      requires DownSafe() && !shutdown && downstream == [] && stage == Lost
      modifies this`shutdown, this`shutdowns
      ensures DownSafe() && shutdown
    {
      shutdown := true;
      shutdowns := shutdowns + 1;
    }

    method OnDownstreamWriteFlush()
      requires DownSafe()
      modifies this`downstream, this`sentDown, this`clientFull, this`writeInProgress, this`chReading, this`shutdown,
               this`shutdowns, this`state, this`closed, this`stage
      ensures DownSafe()
      ensures old(Unflushed()) == 0 ==>
        unchanged(this`downstream, this`sentDown, this`clientFull, this`writeInProgress, this`chReading, this`shutdown,
                  this`shutdowns, this`state, this`closed, this`stage)
      decreases Unflushed(), 6
    {
      if downstream != [] {
        OnDownstreamWrite();
      }
    }

    /** `OnDownstreamWrite` of no buffer: starts writing unless a wait is outstanding. */
    method OnDownstreamWrite()
      requires DownSafe()
      modifies this`downstream, this`sentDown, this`clientFull, this`writeInProgress, this`chReading, this`shutdown,
               this`shutdowns, this`state, this`closed, this`stage
      ensures DownSafe() && (!closed ==> stage == old(stage))
      ensures FailedWriteCloses()
      ensures old(Unflushed()) == 0 ==>
        unchanged(this`downstream, this`sentDown, this`clientFull, this`writeInProgress, this`chReading, this`shutdown,
                  this`shutdowns, this`state, this`closed, this`stage)
      ensures old(stage) == Connecting ==> DownWaits() && chReading == old(chReading)
      decreases Unflushed(), 5
    {
      if downstream != [] && !writeInProgress {
        if state == StateError {
          return;
        }
        WriteStream();
      }
    }

    /** `OnDownstreamWrite` of the reply to a CONNECT request. */
    method WriteConnectReply()
      requires DownSafe() && stage == Connecting && cfg.reply != [] && pushedDown == []
      modifies this`downstream, this`sentDown, this`clientFull, this`writeInProgress, this`chReading, this`shutdown,
               this`shutdowns, this`state, this`closed, this`stage, this`pushedDown
      ensures DownSafe() && DownWaits() && (!closed ==> stage == Connecting) && chReading == old(chReading)
      ensures FailedWriteCloses()
      ensures pushedDown == cfg.reply
    {
      QueueDownstream(cfg.reply);
      assert pushedDown == cfg.reply;
      OnDownstreamWrite();
    }

    method QueueDownstream(buf: Bytes)
      requires DownSafe() && !shutdown && buf != []
      modifies this`downstream, this`pushedDown
      ensures DownSafe() && downstream == old(downstream) + [buf] && pushedDown == old(pushedDown) + buf
    {
      FifoPush(sentDown, downstream, pushedDown, buf);
      downstream := downstream + [buf];
      pushedDown := pushedDown + buf;
    }

    /** The channel is gone: half-close now, or after what is queued has been written. */
    method Disconnected()
      requires DownSafe() && WhyLost()
      modifies this`downstream, this`sentDown, this`clientFull, this`writeInProgress, this`chReading, this`shutdown,
               this`shutdowns, this`state, this`closed, this`stage, this`upstreamWritable
      ensures DownSafe() && stage == Lost && !upstreamWritable
      ensures (!closed ==> DownWaits()) && (old(closed) ==> closed)
      ensures FailedWriteCloses()
    {
      upstreamWritable := false;
      stage := Lost;
      if downstream == [] && !shutdown {
        ShutdownDownlink();
      } else {
        WriteStream();
      }
    }

    // ------------------------------------------------------------ towards the server

    /** How the waits of this direction stand when nothing is being processed. */
    ghost predicate UpWaits()
      reads this
    {
      && (stage == Connected ==>
            chWriting == (upstream != []) && upstreamWritable == !chWriting && (upstream == [] ==> readInProgress))
      && (stage == Connecting ==>
            !chReading && !chWriting && !upstreamWritable && (readInProgress || pendingData != []))
    }

    /** Arms the channel-writable wait if there is something to write and none is outstanding. */
    method OnUpstreamWriteFlush()
      requires UpSafe()
      modifies this`upstreamWritable, this`chWriting
      ensures UpSafe() && (old(chWriting) ==> chWriting)
      ensures stage == Connected && old(upstreamWritable || chWriting) ==>
        (upstream != [] ==> chWriting) && (upstreamWritable || chWriting)
      ensures stage != Connected ==> chWriting == old(chWriting)
      ensures !old(upstreamWritable) ==> chWriting == old(chWriting) && !upstreamWritable
    {
      if upstream != [] && upstreamWritable {
        assert !chWriting;
        upstreamWritable := false;
        if stage == Connected {
          chWriting := true;
        }
      }
    }

    /** Queues client bytes for the server, encrypted for Shadowsocks. */
    method Forward(buf: Bytes)
      requires UpSafe() && stage == Connected && up.greeted && buf != []
      modifies this`upstream, this`encoder, this`up
      ensures UpSafe() && upstream != [] && up.greeted && up.forwarded == old(up).forwarded + buf
    {
      if cfg.upstream.Shadow? {
        upstream, encoder := EncryptForward(cfg, upstream, encoder, up, buf);
        up := up.(forwarded := up.forwarded + buf, chunks := up.chunks + Chunks(buf));
      } else {
        ForwardKeepsOrder(cfg, upstream, encoder, up, buf);
        upstream := upstream + [buf];
        up := up.(forwarded := up.forwarded + buf);
      }
    }

    /** Client bytes: kept while the channel is being set up, passed on once it is there. */
    method OnStreamRead(buf: Bytes)
      requires UpSafe() && buf != [] && (stage == Connected ==> up.greeted)
      modifies this`closed, this`stage, this`pendingData, this`upstream, this`encoder, this`up, this`upstreamWritable,
               this`chWriting
      ensures UpSafe()
      ensures old(stage) == Connected ==>
        && up.greeted && up.forwarded == old(up).forwarded + buf
        && unchanged(this`closed, this`stage, this`pendingData)
        && (!old(upstreamWritable) ==> chWriting == old(chWriting) && !upstreamWritable)
      ensures old(stage) != Connected ==>
        && unchanged(this`upstream, this`encoder, this`up, this`upstreamWritable, this`chWriting)
        && (if |Flat(old(pendingData))| + |buf| > kMaxHeaderSize
            then closed && stage == Lost && pendingData == old(pendingData)
            else unchanged(this`closed, this`stage) && pendingData == old(pendingData) + [buf])
    {
      if stage != Connected {
        KeepPending(buf);
        return;
      }
      Forward(buf);
      OnUpstreamWriteFlush();
    }

    /** `OnStreamRead` without a channel. */
    method KeepPending(buf: Bytes)
      requires stage != Connected
      modifies this`closed, this`stage, this`pendingData
      ensures if |Flat(old(pendingData))| + |buf| > kMaxHeaderSize
              then closed && stage == Lost && pendingData == old(pendingData)
              else unchanged(this`closed, this`stage) && pendingData == old(pendingData) + [buf]
    {
      if |Flat(pendingData)| + |buf| > kMaxHeaderSize {
        OnDisconnect();
        return;
      }
      pendingData := pendingData + [buf];
    }

    /** Bytes read before the channel is there queue up, up to a limit that ends the connection. */
    method KeepEarlyData(data: Bytes)
      requires Safe(data) && data != [] && stage != Connected && turnedAway == []
      modifies this`closed, this`stage, this`pendingData, this`client, this`turnedAway
      ensures Safe() && (closed <==> old(closed) || OverLimit(old(pendingData), data))
      ensures !OverLimit(old(pendingData), data) ==>
        stage == old(stage) && pendingData == old(pendingData) + [data] && client == old(client) + data
    {
      AccountEarlyData(data);
      KeepPending(data);
    }

    /** Early bytes are accounted for as kept, or as what closes the connection. */
    ghost method AccountEarlyData(data: Bytes)
      requires ClientSafe(data) && data != [] && turnedAway == []
      modifies this`client, this`turnedAway
      ensures if OverLimit(pendingData, data)
              then turnedAway == data && client == old(client)
              else turnedAway == [] && client == old(client) + data
      ensures var kept := if OverLimit(pendingData, data) then pendingData else pendingData + [data];
              Accounted(client, up.forwarded, kept, fromClient, [], turnedAway)
    {
      if OverLimit(pendingData, data) {
        AwayAccounted(client, up.forwarded, pendingData, fromClient, data);
        turnedAway := data;
      } else {
        KeepAccounted(client, up.forwarded, pendingData, fromClient, data);
        client := client + data;
      }
    }

    /** The fields the direction towards the client works on, and the channel. */
    twostate predicate DownSame()
      reads this
    {
      unchanged(this`downstream, this`sentDown, this`clientFull, this`pushedDown, this`writeInProgress, this`chReading,
                this`shutdown, this`shutdowns, this`stage)
    }

    /** Why no byte moved on: the client had none, the channel took none, or an answer is missing. */
    twostate predicate PipeBlocked()
      reads this
    {
      || clientDry.blocked > old(clientDry).blocked || channelFull.blocked > old(channelFull).blocked
      || (upstream != [] && upstream[0] == [])
    }

    /**
     * Puts the next buffer for the server at the head of the queue, reading from the client when
     * the queue is empty. Without one it says why: `TryAgain`, or the connection is closed.
     */
    method GetNextUpstreamBuf() returns (ready: bool, ec: Error)
      requires Safe() && !chWriting
      modifies this`state, this`closed, this`stage, this`pendingData, this`upstream, this`encoder, this`up, this`client,
               this`turnedAway, this`fromClient, this`clientDry
      ensures Safe() && (!closed ==> DownSame())
      ensures ready == (ec == NoError) && (ready ==> upstream != [] && (stage == Connected ==> upstream[0] != []))
      ensures ec == Failed || old(closed) ==> closed
      ensures clientDry.blocked >= old(clientDry).blocked
      ensures ec == TryAgain && stage == Connected ==>
        clientDry.blocked > old(clientDry).blocked || (upstream != [] && upstream[0] == [])
    {
      OrderedFacts(cfg, upstream, encoder, up);
      if upstream != [] {
        if (methodSelectHandshake || authHandshake) && upstream[0] == [] {
          return false, TryAgain;
        }
        return true, NoError;
      }
      if closed {
        return false, Failed;
      }
      ready, ec := ReadClient();
    }

    method ReadClient() returns (ready: bool, ec: Error)
      requires Safe() && !closed && upstream == []
      modifies this`state, this`closed, this`stage, this`pendingData, this`upstream, this`encoder, this`up, this`client,
               this`turnedAway, this`fromClient, this`clientDry
      ensures Safe() && (!closed ==> DownSame())
      ensures ready == (ec == NoError) && (ready ==> upstream != [] && upstream[0] != [])
      ensures ec == Failed || old(closed) ==> closed
      ensures clientDry.blocked >= old(clientDry).blocked
      ensures ec == TryAgain && stage == Connected ==> clientDry.blocked > old(clientDry).blocked
      ensures clientDry.failed > old(clientDry).failed ==> closed
    {
      var data;
      data, ec := DownlinkReadSome();
      ready := false;
      if ec == Failed {
        FailDownlink();
      } else if data == [] {
        ec := TryAgain;
      } else {
        ready, ec := TakeClientData(data);
      }
    }

    method TakeClientData(data: Bytes) returns (ready: bool, ec: Error)
      requires Safe(data) && !closed && upstream == [] && data != []
      modifies this`closed, this`stage, this`pendingData, this`upstream, this`encoder, this`up, this`client,
               this`turnedAway
      ensures Safe() && (!closed ==> DownSame())
      ensures ec == (if ready then NoError else TryAgain) && (ready ==> upstream != [] && upstream[0] != [])
      ensures stage == Connected ==> ready
    {
      if stage != Connected {
        KeepEarlyData(data);
        return false, TryAgain;
      }
      ForwardFresh(data);
      return true, NoError;
    }

    method ForwardFresh(data: Bytes)
      requires Safe(data) && stage == Connected && upstream == [] && data != []
      modifies this`upstream, this`encoder, this`up, this`client
      ensures Safe() && upstream != [] && upstream[0] != []
    {
      OrderedFacts(cfg, upstream, encoder, up);
      ForwardAccounted(client, up.forwarded, fromClient, data);
      Forward(data);
      OrderedFacts(cfg, upstream, encoder, up);
      client := client + data;
    }

    method ReadStream()
      requires !readInProgress
      modifies this`readInProgress
      ensures readInProgress == !closed
    {
      if closed {
        return;
      }
      readInProgress := true;
    }

    /** One `write_some` on the channel; a failed one ends the connection. */
    method SendFront() returns (written: nat, ec: Error)
      requires Safe() && stage == Connected && !chWriting && upstream != [] && upstream[0] != []
      modifies this`toServer, this`channelFull, this`downstream, this`sentDown, this`clientFull, this`writeInProgress,
               this`chReading, this`shutdown, this`shutdowns, this`state, this`closed, this`stage,
               this`upstreamWritable, this`upstream, this`up
      ensures Safe()
      ensures ec == Failed <==> closed
      ensures !old(upstreamWritable) ==> !upstreamWritable
      ensures !closed ==> DownSame() && upstreamWritable == old(upstreamWritable)
      ensures ec == TryAgain ==> upstream != [] && channelFull.blocked > old(channelFull).blocked
      ensures ec == NoError ==> written > 0
      ensures |toServer| == |old(toServer)| + written && channelFull.blocked >= old(channelFull).blocked
      ensures channelFull.failed > old(channelFull).failed ==> closed
    {
      written, ec := WriteHead();
      if ec == Failed {
        ChannelFailed();
      }
    }

    method WriteHead() returns (written: nat, ec: Error)
      requires UpSafe() && !chWriting && upstream != [] && upstream[0] != []
      modifies this`toServer, this`channelFull, this`upstream, this`up
      ensures UpSafe() && up.greeted == old(up).greeted && up.forwarded == old(up).forwarded
      ensures ec == TryAgain ==> upstream != [] && channelFull.blocked > old(channelFull).blocked
      ensures ec == NoError ==> written > 0
      ensures |toServer| == |old(toServer)| + written && channelFull.blocked >= old(channelFull).blocked
      ensures channelFull.failed == old(channelFull).failed + Count(ec == Failed)
    {
      var buf := upstream[0];
      written, ec := ChannelWriteSome(buf);
      SendKeepsOrder(cfg, upstream, encoder, up, written);
      up := AfterSend(upstream, up, written);
      upstream := AfterWrite(upstream, written);
      if ec == NoError && written < |buf| {
        ec := TryAgain;
      }
    }

    method ChannelFailed()
      requires SafeButFailed() && channelFull.failed > 0
      modifies this`downstream, this`sentDown, this`clientFull, this`writeInProgress, this`chReading, this`shutdown,
               this`shutdowns, this`state, this`closed, this`stage, this`upstreamWritable
      ensures Safe() && closed && !upstreamWritable
    {
      LoseChannel();
      OnDisconnect();
    }

    /**
     * Moves bytes from the client to the channel until one of them blocks, then makes sure that
     * the side that blocks is waited for.
     */
    method WriteUpstreamInPipe()
      requires Safe()
      modifies this`toServer, this`channelFull, this`downstream, this`sentDown, this`clientFull, this`writeInProgress,
               this`chReading, this`shutdown, this`shutdowns, this`state, this`closed, this`stage, this`pendingData,
               this`upstream, this`encoder, this`up, this`client, this`turnedAway, this`fromClient, this`clientDry,
               this`upstreamWritable, this`chWriting, this`readInProgress
      ensures Safe()
      ensures (!closed ==> DownSame()) && (old(closed) ==> closed)
      ensures old(chWriting) ==>
        chWriting && unchanged(this`closed, this`upstream, this`upstreamWritable, this`readInProgress)
      ensures !closed && upstream == [] ==> readInProgress
      ensures stage == Connected && !old(chWriting) ==> |toServer| > |old(toServer)| || PipeBlocked()
      ensures stage == Connected && old(upstreamWritable || chWriting) ==> upstreamWritable || chWriting
      ensures !old(upstreamWritable) ==> chWriting == old(chWriting) && !upstreamWritable
    {
      if !chWriting {
        PipeAndWait();
      }
    }

    method PipeAndWait()
      requires Safe() && !chWriting
      modifies this`toServer, this`channelFull, this`downstream, this`sentDown, this`clientFull, this`writeInProgress,
               this`chReading, this`shutdown, this`shutdowns, this`state, this`closed, this`stage, this`pendingData,
               this`upstream, this`encoder, this`up, this`client, this`turnedAway, this`fromClient, this`clientDry,
               this`upstreamWritable, this`chWriting, this`readInProgress
      ensures Safe()
      ensures (!closed ==> DownSame()) && (old(closed) ==> closed)
      ensures !closed && upstream == [] ==> readInProgress
      ensures stage == Connected ==> |toServer| > |old(toServer)| || PipeBlocked()
      ensures stage == Connected && old(upstreamWritable) ==> upstreamWritable || chWriting
      ensures !old(upstreamWritable) ==> !chWriting && !upstreamWritable
    {
      var tryAgain, ec := MoveUpstream();
      if ec != Failed {
        AwaitBlockedSide(tryAgain, ec);
      }
    }

    method AwaitBlockedSide(tryAgain: bool, ec: Error)
      requires Safe() && !chWriting
      modifies this`readInProgress, this`upstreamWritable, this`chWriting
      ensures Safe()
      ensures !closed && tryAgain ==> readInProgress
      ensures stage == Connected && old(upstreamWritable) ==> upstreamWritable || chWriting
      ensures !old(upstreamWritable) ==> !chWriting && !upstreamWritable
    {
      if tryAgain && !readInProgress {
        ReadStream();
      }
      if ec == TryAgain {
        OnUpstreamWriteFlush();
      }
    }

    method MoveUpstream() returns (tryAgain: bool, ec: Error)
      requires Safe() && !chWriting
      modifies this`toServer, this`channelFull, this`downstream, this`sentDown, this`clientFull, this`writeInProgress,
               this`chReading, this`shutdown, this`shutdowns, this`state, this`closed, this`stage, this`pendingData,
               this`upstream, this`encoder, this`up, this`client, this`turnedAway, this`fromClient, this`clientDry,
               this`upstreamWritable
      ensures Safe()
      ensures ec == Failed || old(closed) ==> closed
      ensures !old(upstreamWritable) ==> !upstreamWritable
      ensures !closed ==> DownSame() && upstreamWritable == old(upstreamWritable)
      ensures !closed && upstream == [] ==> tryAgain
      ensures clientDry.blocked >= old(clientDry).blocked && channelFull.blocked >= old(channelFull).blocked
      ensures |toServer| >= |old(toServer)| && (stage == Connected ==> |toServer| > |old(toServer)| || PipeBlocked())
    {
      tryAgain, ec := false, NoError;
      var moved := 0;
      while true
        invariant Safe() && !chWriting
        invariant !closed ==> DownSame() && upstreamWritable == old(upstreamWritable)
        invariant (!old(upstreamWritable) ==> !upstreamWritable) && (old(closed) ==> closed)
        invariant !tryAgain && moved <= kYieldAfterBytesRead && |toServer| >= |old(toServer)| + moved
        invariant clientDry.blocked >= old(clientDry).blocked && channelFull.blocked >= old(channelFull).blocked
        decreases kYieldAfterBytesRead - moved
      {
        var n;
        n, tryAgain, ec := MoveOnce();
        if n == 0 {
          return;
        }
        moved := moved + n;
        var late: bool := *;
        if moved > kYieldAfterBytesRead || late {
          if upstream == [] {
            tryAgain := true;
          } else {
            ec := TryAgain;
          }
          return;
        }
      }
    }

    /** One turn of the loop: a whole buffer written, or nothing more to be done now. */
    method MoveOnce() returns (n: nat, tryAgain: bool, ec: Error)
      requires Safe() && !chWriting
      modifies this`toServer, this`channelFull, this`downstream, this`sentDown, this`clientFull, this`writeInProgress,
               this`chReading, this`shutdown, this`shutdowns, this`state, this`closed, this`stage, this`pendingData,
               this`upstream, this`encoder, this`up, this`client, this`turnedAway, this`fromClient, this`clientDry,
               this`upstreamWritable
      ensures Safe()
      ensures ec == Failed || old(closed) ==> closed
      ensures !old(upstreamWritable) ==> !upstreamWritable
      ensures !closed ==> DownSame() && upstreamWritable == old(upstreamWritable)
      ensures n > 0 ==> ec == NoError && !tryAgain
      ensures n == 0 && !closed && upstream == [] ==> tryAgain
      ensures clientDry.blocked >= old(clientDry).blocked && channelFull.blocked >= old(channelFull).blocked
      ensures |toServer| >= |old(toServer)| + n && (n == 0 && stage == Connected ==> PipeBlocked())
    {
      var ready;
      ready, ec := GetNextUpstreamBuf();
      n, tryAgain := 0, ec == TryAgain;
      if tryAgain {
        ec := NoError;
      } else if ready && upstream[0] != [] {
        n, ec := SendReady();
      }
    }

    method SendReady() returns (n: nat, ec: Error)
      requires Safe() && !chWriting && upstream != [] && upstream[0] != []
      modifies this`toServer, this`channelFull, this`downstream, this`sentDown, this`clientFull, this`writeInProgress,
               this`chReading, this`shutdown, this`shutdowns, this`state, this`closed, this`stage,
               this`upstreamWritable, this`upstream, this`up
      ensures Safe()
      ensures ec == Failed || old(closed) ==> closed
      ensures !old(upstreamWritable) ==> !upstreamWritable
      ensures !closed ==> DownSame() && upstreamWritable == old(upstreamWritable)
      ensures n > 0 ==> ec == NoError
      ensures n == 0 && !closed ==> upstream != []
      ensures |toServer| >= |old(toServer)| + n && channelFull.blocked >= old(channelFull).blocked
      ensures n == 0 && stage == Connected ==> channelFull.blocked > old(channelFull).blocked
    {
      if stage != Connected {
        return 0, TryAgain;
      }
      n, ec := SendFront();
      n := if ec == NoError then n else 0;
    }

    // ------------------------------------------------------------ from the server

    /**
     * The answer to the last message is in and the flags say so; its slot is still open. `rest` is
     * the answer if it is not accounted for yet.
     */
    ghost predicate Answered(rest: Bytes, hello: bool, authed: bool)
      reads this
    {
      && DownSafe()
      && Ordered(cfg, upstream, encoder, up)
      && (chWriting ==> upstream != [] && !upstreamWritable) && toServer == up.sent
      && ClientSafe() && Logged(cfg, decoder, down, pushedDown, fromServer, rest, true)
      && stage == Connected && pendingData == [] && up.greeted
      && !methodSelectHandshake && up.slots == FlagSlots(false, authHandshake) + 1
      && (authHandshake ==> cfg.AuthRequired())
      && upstream != [] && upstream[0] == []
      && down.refused == [] && down.granted.None? && cfg.upstream.Socks5?
      && down.hello == hello && down.authed == authed
      && waits.established && Clean()
    }

    /** `buf` is not the answer that is due: it is thrown away with the channel. */
    method Refuse(buf: Bytes)
      requires DownSafe() && UpSafeButFlags() && ClientSafe() && buf != [] && up.greeted
      requires Logged(cfg, decoder, down, pushedDown, fromServer, buf, true)
      requires down.refused == [] && down.granted.None? && !cfg.upstream.Shadow? && Refusable(cfg, down, buf)
      requires waits.established
      modifies this`downstream, this`sentDown, this`clientFull, this`writeInProgress, this`chReading, this`shutdown,
               this`shutdowns, this`state, this`closed, this`stage, this`upstreamWritable, this`down
      ensures Idle() && stage == Lost
    {
      LoggedRefused(cfg, decoder, down, pushedDown, fromServer, buf);
      down := down.(got := down.got + buf, refused := buf);
      LoseChannel();
    }

    /** `UpSafe` while the flags are ahead of the slots. */
    ghost predicate UpSafeButFlags()
      reads this
    {
      Ordered(cfg, upstream, encoder, up) && (chWriting ==> upstream != [] && !upstreamWritable) && toServer == up.sent
    }

    /** What a read from the channel leaves alone on the way to the server. */
    twostate predicate UpKept()
      reads this
    {
      stage == Connected ==>
        && old(stage) == Connected
        && (old(chWriting) ==> chWriting)
        && (old(upstreamWritable || chWriting) ==> upstreamWritable || chWriting)
        && (old(upstream) == [] ==>
              unchanged(this`upstream, this`upstreamWritable, this`chWriting, this`readInProgress))
    }

    /** The message due takes the slot at the head of the queue. */
    method FillSlot(message: Bytes)
      requires Ordered(cfg, upstream, encoder, up) && upstream != [] && upstream[0] == []
      requires 1 <= up.slots && message == cfg.NextMessage(up.slots)
      modifies this`upstream, this`up
      ensures Ordered(cfg, upstream, encoder, up) && upstream != []
      ensures up == AfterAnswer(old(up))
    {
      AnswerKeepsOrder(cfg, upstream, encoder, up);
      up := AfterAnswer(up);
      upstream := [message] + upstream[1..];
    }

    method WriteUpstreamAuthRequest()
      requires Answered([], true, false) && authHandshake
      modifies this`toServer, this`channelFull, this`downstream, this`sentDown, this`clientFull, this`writeInProgress,
               this`chReading, this`shutdown, this`shutdowns, this`state, this`closed, this`stage, this`pendingData,
               this`upstream, this`encoder, this`up, this`client, this`turnedAway, this`fromClient, this`clientDry,
               this`upstreamWritable, this`chWriting, this`readInProgress
      ensures Safe() && UpKept() && (!closed ==> DownSame())
    {
      FillSlot(cfg.AuthRequest());
      WriteUpstreamInPipe();
    }

    method WriteUpstreamSocks5Request()
      requires Answered([], true, cfg.AuthRequired()) && !authHandshake
      modifies this`toServer, this`channelFull, this`downstream, this`sentDown, this`clientFull, this`writeInProgress,
               this`chReading, this`shutdown, this`shutdowns, this`state, this`closed, this`stage, this`pendingData,
               this`upstream, this`encoder, this`up, this`client, this`turnedAway, this`fromClient, this`clientDry,
               this`upstreamWritable, this`chWriting, this`readInProgress, this`socksHandshake
      ensures Safe() && UpKept() && (!closed ==> DownSame())
    {
      FillLastSlot();
      WriteUpstreamInPipe();
    }

    method FillLastSlot()
      requires Answered([], true, cfg.AuthRequired()) && !authHandshake
      modifies this`upstream, this`up, this`socksHandshake
      ensures Safe() && upstream != []
    {
      FillSlot(cfg.Socks5Request());
      socksHandshake := true;
    }

    /** The message the answer allows goes out, authentication before the request. */
    method ContinueNegotiation()
      requires Answered([], true, cfg.AuthRequired() && !authHandshake)
      modifies this`toServer, this`channelFull, this`downstream, this`sentDown, this`clientFull, this`writeInProgress,
               this`chReading, this`shutdown, this`shutdowns, this`state, this`closed, this`stage, this`pendingData,
               this`upstream, this`encoder, this`up, this`client, this`turnedAway, this`fromClient, this`clientDry,
               this`upstreamWritable, this`chWriting, this`readInProgress, this`socksHandshake
      ensures Safe() && UpKept() && (!closed ==> DownSame())
    {
      if authHandshake {
        WriteUpstreamAuthRequest();
      } else {
        WriteUpstreamSocks5Request();
      }
    }

    method ReadUpstreamMethodSelectResponse(buf: Bytes) returns (ec: Error)
      requires Safe([], buf) && buf != [] && stage == Connected && methodSelectHandshake && cfg.upstream.Socks5?
      requires upstream != [] && upstream[0] == [] && |buf| <= 2
      modifies this`toServer, this`channelFull, this`downstream, this`sentDown, this`clientFull, this`writeInProgress,
               this`chReading, this`shutdown, this`shutdowns, this`state, this`closed, this`stage, this`pendingData,
               this`upstream, this`encoder, this`up, this`client, this`turnedAway, this`fromClient, this`clientDry,
               this`upstreamWritable, this`chWriting, this`readInProgress, this`socksHandshake,
               this`methodSelectHandshake, this`down
      ensures Safe() && UpKept() && ec != NoError
      ensures ec == TryAgain <==> buf == [5, if cfg.AuthRequired() then 2 else 0]
      ensures ec == TryAgain && !closed ==> DownSame()
      ensures ec == Failed ==> stage == Lost && (!closed ==> DownWaits())
    {
      OrderedFacts(cfg, upstream, encoder, up);
      InStepFacts(cfg, down, methodSelectHandshake, authHandshake, socksHandshake, httpsHandshake);
      methodSelectHandshake := false;
      if |buf| < 2 || buf[0] != 5 || buf[1] != (if authHandshake then 2 else 0) {
        Refuse(buf);
        return Failed;
      }
      assert buf == cfg.MethodAnswer();
      AcceptMethod();
      ec := TryAgain;
    }

    method AcceptMethod()
      requires Answered(cfg.MethodAnswer(), false, false) && authHandshake == cfg.AuthRequired()
      modifies this`toServer, this`channelFull, this`downstream, this`sentDown, this`clientFull, this`writeInProgress,
               this`chReading, this`shutdown, this`shutdowns, this`state, this`closed, this`stage, this`pendingData,
               this`upstream, this`encoder, this`up, this`client, this`turnedAway, this`fromClient, this`clientDry,
               this`upstreamWritable, this`chWriting, this`readInProgress, this`socksHandshake, this`down
      ensures Safe() && UpKept() && (!closed ==> DownSame())
    {
      LoggedHello(cfg, decoder, down, pushedDown, fromServer);
      down := WithHello(cfg, down);
      ContinueNegotiation();
    }

    method ReadUpstreamAuthResponse(buf: Bytes) returns (ec: Error)
      requires Safe([], buf) && buf != [] && stage == Connected && authHandshake && !methodSelectHandshake
      requires cfg.upstream.Socks5?
      requires upstream != [] && upstream[0] == [] && |buf| <= 2
      modifies this`toServer, this`channelFull, this`downstream, this`sentDown, this`clientFull, this`writeInProgress,
               this`chReading, this`shutdown, this`shutdowns, this`state, this`closed, this`stage, this`pendingData,
               this`upstream, this`encoder, this`up, this`client, this`turnedAway, this`fromClient, this`clientDry,
               this`upstreamWritable, this`chWriting, this`readInProgress, this`socksHandshake, this`authHandshake,
               this`down
      ensures Safe() && UpKept() && ec != NoError
      ensures ec == TryAgain <==> buf == [5, 0]
      ensures ec == TryAgain && !closed ==> DownSame()
      ensures ec == Failed ==> stage == Lost && (!closed ==> DownWaits())
    {
      InStepFacts(cfg, down, methodSelectHandshake, authHandshake, socksHandshake, httpsHandshake);
      authHandshake := false;
      if |buf| < 2 || buf[0] != 5 || buf[1] != 0 {
        Refuse(buf);
        return Failed;
      }
      assert buf == [5, 0];
      AcceptAuth();
      ec := TryAgain;
    }

    method AcceptAuth()
      requires Answered([5, 0], true, false) && !authHandshake && cfg.AuthRequired()
      modifies this`toServer, this`channelFull, this`downstream, this`sentDown, this`clientFull, this`writeInProgress,
               this`chReading, this`shutdown, this`shutdowns, this`state, this`closed, this`stage, this`pendingData,
               this`upstream, this`encoder, this`up, this`client, this`turnedAway, this`fromClient, this`clientDry,
               this`upstreamWritable, this`chWriting, this`readInProgress, this`socksHandshake, this`down
      ensures Safe() && UpKept() && (!closed ==> DownSame())
    {
      LoggedAuth(cfg, decoder, down, pushedDown, fromServer);
      down := WithAuth(down);
      ContinueNegotiation();
    }

    /** What is left of `buf` behind the answer; `TryAgain` if that is nothing. */
    method ReadUpstreamSocksResponse(buf: Bytes) returns (rest: Bytes, ec: Error)
      requires Safe([], buf) && buf != [] && stage == Connected && !methodSelectHandshake && !authHandshake
      requires socksHandshake
      requires !cfg.upstream.Shadow? && !cfg.upstream.Https?
      modifies this`downstream, this`sentDown, this`clientFull, this`writeInProgress, this`chReading, this`shutdown,
               this`shutdowns, this`state, this`closed, this`stage, this`upstreamWritable, this`down,
               this`socksHandshake
      ensures Safe([], if ec == NoError then rest else [])
      ensures ec != Failed ==> DownSame() && !closed && Negotiated() && (ec == NoError <==> rest != [])
      ensures ec == Failed <==> RequestParsers.SocksReplyLength(cfg.upstream, buf).None?
      ensures ec != Failed ==> rest == buf[RequestParsers.SocksReplyLength(cfg.upstream, buf).value..]
      ensures ec == Failed ==> stage == Lost && (!closed ==> DownWaits())
      ensures stage == Connected ==> upstreamWritable == old(upstreamWritable)
    {
      InStepFacts(cfg, down, methodSelectHandshake, authHandshake, socksHandshake, httpsHandshake);
      socksHandshake := false;
      var length := RequestParsers.SocksReplyLength(cfg.upstream, buf);
      if length.None? {
        Refuse(buf);
        return [], Failed;
      }
      RequestParsers.AnswerAlone(cfg.upstream, buf);
      rest := buf[length.value..];
      assert buf == buf[..length.value] + rest;
      TakeGrant(buf[..length.value], rest, []);
      ec := if rest == [] then TryAgain else NoError;
    }

    method ReadUpstreamHttpsHandshake(buf: Bytes) returns (rest: Bytes, ec: Error)
      requires Safe([], buf) && stage == Connected && buf != [] && httpsHandshake && cfg.upstream.Https?
      modifies this`downstream, this`sentDown, this`clientFull, this`writeInProgress, this`chReading, this`shutdown,
               this`shutdowns, this`state, this`closed, this`stage, this`upstreamWritable, this`down,
               this`httpsHandshake
      ensures Safe([], if ec == NoError then rest else []) && !httpsHandshake
      ensures ec != Failed ==> DownSame() && !closed && (ec == NoError <==> rest != [])
      ensures ec == Failed <==> cfg.GrantedLength(buf).None?
      ensures ec != Failed ==> rest == buf[cfg.GrantedLength(buf).value..]
      ensures ec == Failed ==> stage == Lost && (!closed ==> DownWaits()) && rest != []
      ensures stage == Connected ==> upstreamWritable == old(upstreamWritable)
    {
      var nparsed := cfg.GrantedLength(buf);
      if nparsed.None? {
        RefuseHeader(buf);
        return buf, Failed;
      }
      rest := AcceptHeader(buf, nparsed.value);
      ec := if rest == [] then TryAgain else NoError;
    }

    method RefuseHeader(buf: Bytes)
      requires Safe([], buf) && stage == Connected && buf != [] && httpsHandshake && cfg.upstream.Https?
      requires cfg.GrantedLength(buf).None?
      modifies this`downstream, this`sentDown, this`clientFull, this`writeInProgress, this`chReading, this`shutdown,
               this`shutdowns, this`state, this`closed, this`stage, this`upstreamWritable, this`down,
               this`httpsHandshake
      ensures Idle() && stage == Lost && !httpsHandshake
    {
      InStepFacts(cfg, down, methodSelectHandshake, authHandshake, socksHandshake, httpsHandshake);
      httpsHandshake := false;
      Refuse(buf);
    }

    method AcceptHeader(buf: Bytes, n: nat) returns (rest: Bytes)
      requires Safe([], buf) && stage == Connected && httpsHandshake && cfg.upstream.Https?
      requires cfg.GrantedLength(buf) == Some(n)
      modifies this`down, this`httpsHandshake
      ensures Safe([], rest) && rest == buf[n..] && !httpsHandshake
    {
      InStepFacts(cfg, down, methodSelectHandshake, authHandshake, socksHandshake, httpsHandshake);
      httpsHandshake := false;
      rest := buf[n..];
      assert buf == buf[..n] + rest;
      TakeGrant(buf[..n], rest, buf);
    }

    /** What is safe, but for the flags that are ahead of the answers. */
    ghost predicate SafeButStep(rest: Bytes)
      reads this
    {
      && DownSafe() && UpSafe() && ClientSafe() && stage == Connected && pendingData == [] && up.greeted
      && waits.established && !Unaskable(cfg) && Clean()
      && Logged(cfg, decoder, down, pushedDown, fromServer, rest, true)
    }

    /** Accounts for the front of what was read: the answer that grants the request. */
    ghost method TakeGrant(answer: Bytes, rest: Bytes, piece: Bytes)
      requires SafeButStep(answer + rest) && !cfg.upstream.Shadow? && down.granted.None? && Negotiated()
      requires cfg.upstream.Socks5? ==> down.hello && down.authed == cfg.AuthRequired()
      requires Grants(cfg, answer, piece) && (piece == [] || (piece == answer + rest && !cfg.upstream.Socks5?))
      modifies this`down
      ensures Safe([], rest)
    {
      LoggedGrant(cfg, decoder, down, pushedDown, fromServer, answer, rest, piece);
      down := WithGrant(down, answer, piece);
    }

    method RelayPayload(payload: Bytes)
      requires Safe([], payload) && stage == Connected && Negotiated() && !cfg.upstream.Shadow? && payload != []
      modifies this`downstream, this`pushedDown, this`down
      ensures Safe() && downstream == old(downstream) + [payload]
    {
      InStepFacts(cfg, down, methodSelectHandshake, authHandshake, socksHandshake, httpsHandshake);
      LoggedPayload(cfg, decoder, down, pushedDown, fromServer, payload);
      QueueDownstream(payload);
      down := down.(got := down.got + payload);
    }

    /** How a read from the channel leaves the direction towards the client. */
    ghost predicate ReadOutcome(ready: bool, ec: Error)
      reads this
    {
      && stage != Connecting
      && (ready ==> downstream != [])
      && (stage == Connected ==>
            && !chReading && !writeInProgress && ready == (downstream != [])
            && ec == (if ready then NoError else TryAgain))
      && (stage == Lost && !closed ==> DownWaits())
    }

    /** Payload when nothing else is queued: it is what the read was for. */
    method RelayFirst(payload: Bytes)
      requires Safe([], payload) && stage == Connected && Negotiated() && !cfg.upstream.Shadow? && payload != []
      requires !writeInProgress && !chReading && downstream == []
      modifies this`downstream, this`pushedDown, this`down
      ensures Safe() && ReadOutcome(true, NoError)
    {
      RelayPayload(payload);
    }

    method GetNextDownstreamBuf() returns (ready: bool, ec: Error)
      requires Safe() && !writeInProgress && (stage == Connected || closed)
      requires stage == Connected ==> !chReading && downstream == []
      modifies this
      ensures unchanged(this`waits)
      ensures Safe() && UpKept() && ReadOutcome(ready, ec)
      ensures stage == Connected ==> |fromServer| > |old(fromServer)| || serverDry.blocked > old(serverDry).blocked
    {
      if downstream != [] {
        return true, NoError;
      }
      if stage != Connected {
        return false, TryAgain;
      }
      ready, ec := ReadChannel();
    }

    method ReadChannel() returns (ready: bool, ec: Error)
      requires Safe() && !writeInProgress && stage == Connected && !chReading && downstream == []
      modifies this
      ensures Safe() && UpKept() && ReadOutcome(ready, ec) && unchanged(this`waits)
      ensures stage == Connected ==> |fromServer| > |old(fromServer)| || serverDry.blocked > old(serverDry).blocked
    {
      var data;
      data, ec := TakePiece();
      ready := false;
      if ec == Failed {
        LoseChannel();
      } else if data == [] {
        ec := TryAgain;
      } else {
        ready, ec := Receive(data);
      }
    }

    method Receive(data: Bytes) returns (ready: bool, ec: Error)
      requires Safe([], data) && stage == Connected && !writeInProgress && !chReading && downstream == [] && data != []
      requires methodSelectHandshake || authHandshake ==> upstream != [] && upstream[0] == [] && |data| <= 2
      modifies this
      ensures unchanged(this`waits)
      ensures Safe() && UpKept() && ReadOutcome(ready, ec) && |fromServer| >= |old(fromServer)|
      ensures serverDry.blocked >= old(serverDry).blocked
    {
      if cfg.upstream.Https? || cfg.upstream.Shadow? {
        ready, ec := ReceiveDirect(data);
      } else {
        ready, ec := ReceiveSocks(data);
      }
    }

    method ReceiveDirect(data: Bytes) returns (ready: bool, ec: Error)
      requires Safe([], data) && stage == Connected && !writeInProgress && !chReading && downstream == [] && data != []
      requires cfg.upstream.Https? || cfg.upstream.Shadow?
      modifies this`downstream, this`sentDown, this`clientFull, this`pushedDown, this`writeInProgress, this`chReading,
               this`shutdown, this`shutdowns, this`state, this`closed, this`stage, this`upstreamWritable, this`down,
               this`httpsHandshake, this`fromServer, this`serverDry, this`decoder
      ensures Safe() && ReadOutcome(ready, ec)
      ensures stage == Connected ==> upstreamWritable == old(upstreamWritable)
      ensures |fromServer| >= |old(fromServer)| && serverDry.blocked >= old(serverDry).blocked
    {
      if cfg.upstream.Https? {
        ready, ec := ReceiveHttps(data);
      } else {
        ready, ec := ReceiveEncrypted(data);
      }
    }

    method ReceiveSocks(data: Bytes) returns (ready: bool, ec: Error)
      requires Safe([], data) && stage == Connected && !writeInProgress && !chReading && downstream == [] && data != []
      requires !cfg.upstream.Shadow? && !cfg.upstream.Https?
      requires methodSelectHandshake || authHandshake ==> upstream != [] && upstream[0] == [] && |data| <= 2
      modifies this`toServer, this`channelFull, this`downstream, this`sentDown, this`clientFull, this`writeInProgress,
               this`chReading, this`shutdown, this`shutdowns, this`state, this`closed, this`stage, this`pendingData,
               this`upstream, this`encoder, this`up, this`client, this`turnedAway, this`fromClient, this`clientDry,
               this`upstreamWritable, this`chWriting, this`readInProgress, this`socksHandshake,
               this`methodSelectHandshake, this`authHandshake, this`down, this`pushedDown
      ensures Safe() && UpKept() && ReadOutcome(ready, ec)
    {
      OrderedFacts(cfg, upstream, encoder, up);
      if methodSelectHandshake || authHandshake {
        ec := ReceiveAnswer(data);
        ready := false;
      } else {
        ready, ec := ReceiveNegotiated(data);
      }
    }

    method ReceiveAnswer(data: Bytes) returns (ec: Error)
      requires Safe([], data) && stage == Connected && !writeInProgress && !chReading && downstream == [] && data != []
      requires cfg.upstream.Socks5? && (methodSelectHandshake || authHandshake)
      requires upstream != [] && upstream[0] == [] && |data| <= 2
      modifies this`toServer, this`channelFull, this`downstream, this`sentDown, this`clientFull, this`writeInProgress,
               this`chReading, this`shutdown, this`shutdowns, this`state, this`closed, this`stage, this`pendingData,
               this`upstream, this`encoder, this`up, this`client, this`turnedAway, this`fromClient, this`clientDry,
               this`upstreamWritable, this`chWriting, this`readInProgress, this`socksHandshake,
               this`methodSelectHandshake, this`authHandshake, this`down
      ensures Safe() && UpKept() && ReadOutcome(false, ec)
    {
      if methodSelectHandshake {
        ec := ReadUpstreamMethodSelectResponse(data);
      } else {
        ec := ReadUpstreamAuthResponse(data);
      }
    }

    method ReceiveNegotiated(data: Bytes) returns (ready: bool, ec: Error)
      requires Safe([], data) && stage == Connected && !writeInProgress && !chReading && downstream == [] && data != []
      requires !cfg.upstream.Shadow? && !cfg.upstream.Https? && !methodSelectHandshake && !authHandshake
      modifies this`downstream, this`sentDown, this`clientFull, this`pushedDown, this`writeInProgress, this`chReading,
               this`shutdown, this`shutdowns, this`state, this`closed, this`stage, this`upstreamWritable, this`down,
               this`socksHandshake
      ensures Safe() && ReadOutcome(ready, ec)
      ensures stage == Connected ==> upstreamWritable == old(upstreamWritable)
    {
      var rest := data;
      if socksHandshake {
        rest, ec := ReadUpstreamSocksResponse(data);
        if ec != NoError {
          return false, ec;
        }
      }
      RelayFirst(rest);
      return true, NoError;
    }

    method ReceiveHttps(data: Bytes) returns (ready: bool, ec: Error)
      requires Safe([], data) && stage == Connected && !writeInProgress && !chReading && downstream == [] && data != []
      requires cfg.upstream.Https?
      modifies this`downstream, this`sentDown, this`clientFull, this`pushedDown, this`writeInProgress, this`chReading,
               this`shutdown, this`shutdowns, this`state, this`closed, this`stage, this`upstreamWritable, this`down,
               this`httpsHandshake, this`fromServer, this`serverDry
      ensures Safe() && |fromServer| >= |old(fromServer)| && serverDry.blocked >= old(serverDry).blocked
      ensures ReadOutcome(ready, ec)
      ensures stage == Connected ==> upstreamWritable == old(upstreamWritable)
    {
      if httpsHandshake {
        ready, ec := ReceiveHeader(data);
      } else {
        RelayFirst(data);
        ready, ec := true, NoError;
      }
    }

    method ReceiveHeader(data: Bytes) returns (ready: bool, ec: Error)
      requires Safe([], data) && stage == Connected && !writeInProgress && !chReading && downstream == [] && data != []
      requires cfg.upstream.Https? && httpsHandshake
      modifies this`downstream, this`sentDown, this`clientFull, this`pushedDown, this`writeInProgress, this`chReading,
               this`shutdown, this`shutdowns, this`state, this`closed, this`stage, this`upstreamWritable, this`down,
               this`httpsHandshake, this`fromServer, this`serverDry
      ensures Safe() && |fromServer| >= |old(fromServer)| && serverDry.blocked >= old(serverDry).blocked
      ensures ReadOutcome(ready, ec)
      ensures stage == Connected ==> upstreamWritable == old(upstreamWritable)
    {
      var rest;
      rest, ec := ReadUpstreamHttpsHandshake(data);
      if rest == [] {
        ready, ec := ReadBehindHeader();
      } else if ec == Failed {
        ready := false;
      } else {
        RelayFirst(rest);
        ready := true;
      }
    }

    /** The header came alone: read again. */
    method ReadBehindHeader() returns (ready: bool, ec: Error)
      requires Safe() && stage == Connected && !writeInProgress && !chReading && downstream == []
      requires cfg.upstream.Https? && !httpsHandshake
      modifies this`downstream, this`sentDown, this`clientFull, this`pushedDown, this`writeInProgress, this`chReading,
               this`shutdown, this`shutdowns, this`state, this`closed, this`stage, this`upstreamWritable, this`down,
               this`fromServer, this`serverDry
      ensures Safe() && |fromServer| >= |old(fromServer)| && serverDry.blocked >= old(serverDry).blocked
      ensures ReadOutcome(ready, ec)
      ensures stage == Connected ==> upstreamWritable == old(upstreamWritable)
    {
      var rest;
      rest, ec := TakePiece();
      ready := false;
      if ec == Failed {
        LoseChannel();
      } else if ec == NoError {
        RelayFirst(rest);
        ready := true;
      }
    }

    method ReceiveEncrypted(data: Bytes) returns (ready: bool, ec: Error)
      requires Safe([], data) && stage == Connected && !writeInProgress && !chReading && downstream == [] && data != []
      requires cfg.upstream.Shadow?
      modifies this`downstream, this`sentDown, this`clientFull, this`pushedDown, this`writeInProgress, this`chReading,
               this`shutdown, this`shutdowns, this`state, this`closed, this`stage, this`upstreamWritable, this`down,
               this`decoder
      ensures Safe() && ReadOutcome(ready, ec)
      ensures stage == Connected ==> upstreamWritable == old(upstreamWritable)
    {
      var protocolError := RelayFrames(data);
      if protocolError {
        LoseChannel();
      }
      ready := downstream != [];
      ec := if ready then NoError else TryAgain;
    }

    /** Each frame the piece completes becomes a buffer for the client. */
    method RelayFrames(data: Bytes) returns (protocolError: bool)
      requires Safe([], data) && data != [] && stage == Connected && cfg.upstream.Shadow?
      modifies this`downstream, this`pushedDown, this`down, this`decoder
      ensures SafeButFailed() && down.refused == (if protocolError then data else [])
    {
      var d, frames;
      d, frames, protocolError := DecryptPiece(cfg, decoder, down, pushedDown, fromServer, data);
      QueueFrames(frames);
      decoder := d;
      down := WithPiece(down, data, protocolError);
    }

    method QueueFrames(frames: seq<Bytes>)
      requires DownSafe() && !shutdown && NoEmpty(frames)
      modifies this`downstream, this`pushedDown
      ensures DownSafe() && pushedDown == old(pushedDown) + Flat(frames)
    {
      for i := 0 to |frames|
        invariant DownSafe() && pushedDown == old(pushedDown) + Flat(frames[..i])
      {
        assert frames[..i + 1] == frames[..i] + [frames[i]];
        FlatPush(frames[..i], frames[i]);
        Regroup(old(pushedDown), Flat(frames[..i]), frames[i]);
        QueueDownstream(frames[i]);
      }
      assert frames[..|frames|] == frames;
    }

    method ReadUpstream()
      requires Safe() && (stage == Connected || closed)
      requires stage == Connected ==> !chReading && writeInProgress == (downstream != [])
      modifies this
      ensures unchanged(this`waits)
      ensures Safe() && UpKept() && DownWaits() && stage != Connecting
      ensures stage == Connected && !old(writeInProgress) ==>
        |fromServer| > |old(fromServer)| || serverDry.blocked > old(serverDry).blocked
    {
      if writeInProgress {
        return;
      }
      var ready, ec := GetNextDownstreamBuf();
      Deliver(ready, ec);
    }

    /** Second half of `ReadUpstream`: writes what was read, or waits for more. */
    method Deliver(ready: bool, ec: Error)
      requires Safe() && ReadOutcome(ready, ec)
      modifies this`downstream, this`sentDown, this`clientFull, this`writeInProgress, this`chReading,
               this`shutdown, this`shutdowns, this`state, this`closed, this`stage
      ensures Safe() && DownWaits() && stage != Connecting
      ensures stage == Connected ==> old(stage) == Connected
    {
      if ready {
        WriteReady();
      }
      if ec == TryAgain && stage == Connected && !chReading {
        ReadUpstreamAsync();
      }
    }

    method WriteReady()
      requires Safe() && stage != Connecting && downstream != []
      requires stage == Connected ==> !chReading && !writeInProgress
      requires stage == Lost && !closed ==> DownWaits()
      modifies this`downstream, this`sentDown, this`clientFull, this`writeInProgress, this`chReading, this`shutdown,
               this`shutdowns, this`state, this`closed, this`stage
      ensures Safe() && DownWaits() && stage != Connecting
      ensures stage == Connected ==> old(stage) == Connected
    {
      WriteStream();
      WritingIsSafe();
    }

    // ------------------------------------------------------------ events

    /** The state between two events: nothing queued is without a wait that will move it. */
    ghost predicate Idle()
      reads this
    {
      Safe() && DownWaits() && UpWaits()
    }

    /** The connection before the client's handshake is answered. */
    ghost predicate Unstarted()
      reads this
    {
      && DownSafe() && UpSafe() && ClientSafe() && stage == Connecting && !closed
      && downstream == [] && upstream == [] && pendingData == [] && client == [] && fromClient == [] && turnedAway == []
      && !chReading && !chWriting && !upstreamWritable && !readInProgress && !writeInProgress && httpsHandshake
      && pushedDown == [] && fromServer == [] && down == NothingReceived && decoder == NewDecoder
      && waits == Waits(0, 0, false) && Clean()
    }

    constructor (cfg: Config)
      requires cfg.Ok()
      ensures this.cfg == cfg && Unstarted()
    {
      this.cfg := cfg;
      state, closed, shutdown := StateStream, false, false;
      downstream, writeInProgress, readInProgress, pendingData := [], false, false, [];
      upstream, upstreamWritable, encoder := [], false, Encoder(false, 0);
      methodSelectHandshake, authHandshake, socksHandshake, httpsHandshake := false, false, false, true;
      stage, chReading, chWriting := Connecting, false, false;
      fromClient, toServer, fromServer, sentDown := [], [], [], [];
      clientDry, channelFull, serverDry, clientFull := Tally(0, 0), Tally(0, 0), Tally(0, 0), Tally(0, 0);
      waits := Waits(0, 0, false);
      pushedDown, shutdowns, client, turnedAway := [], 0, [], [];
      up, down, decoder := History(false, 0, 0, [], [], []), NothingReceived, NewDecoder;
      new;
      assert Fifo(sentDown, downstream, pushedDown);
      assert Ordered(cfg, upstream, encoder, up);
      assert Accounted(client, up.forwarded, pendingData, fromClient, [], turnedAway);
    }

    /** What may be said before the last flush of a handler. */
    ghost predicate Pumping()
      reads this
    {
      && DownWaits()
      && (stage == Connected ==> upstreamWritable || chWriting)
      && (stage == Connecting ==> !chReading && !chWriting && !upstreamWritable)
    }

    /** The end of most handlers: move what can be moved, wait for what cannot. */
    method PumpUpstream()
      requires Safe() && Pumping()
      modifies this
      ensures unchanged(this`waits)
      ensures Idle() && (stage == old(stage) || stage == Lost)
      ensures stage == Connected && !old(chWriting) ==> |toServer| > |old(toServer)| || PipeBlocked()
    {
      WriteUpstreamInPipe();
      FlushUpstream();
    }

    method FlushUpstream()
      requires Safe() && Pumping() && (!closed && upstream == [] ==> readInProgress)
      modifies this`upstreamWritable, this`chWriting
      ensures Idle()
    {
      OrderedFacts(cfg, upstream, encoder, up);
      OnUpstreamWriteFlush();
    }

    /** The client's side fails: the connection is closed. */
    method FailDownlink()
      requires SafeButFailed() && WhyClosed()
      modifies this`state, this`closed, this`stage
      ensures Idle() && closed
    {
      state := StateError;
      OnDisconnect();
    }

    /** A wait on the client's side has ended with an error. */
    method ClientGone()
      requires Safe()
      modifies this`state, this`closed, this`stage, this`waits
      ensures Idle() && closed && waits == old(waits).(client := old(waits).client + 1)
    {
      waits := waits.(client := waits.client + 1);
      FailDownlink();
    }

    /** A wait on the channel has ended with an error. */
    method ChannelGone()
      requires Safe()
      modifies this`downstream, this`sentDown, this`clientFull, this`writeInProgress, this`chReading, this`shutdown,
               this`shutdowns, this`state, this`closed, this`stage, this`upstreamWritable, this`waits
      ensures Idle() && stage == Lost && waits == old(waits).(channel := old(waits).channel + 1)
    {
      waits := waits.(channel := waits.channel + 1);
      LoseChannel();
    }

    /**
     * The client's handshake is done: a CONNECT request gets its reply, `leftover` are bytes that
     * came with the handshake.
     */
    method Start(leftover: Bytes)
      requires cfg.Ok() && Unstarted()
      modifies this
      ensures unchanged(this`waits)
      ensures Idle()
    {
      ReadAccounted(client, up.forwarded, pendingData, fromClient, leftover);
      fromClient := Plus(fromClient, leftover);
      LoggedStart(cfg);
      if cfg.reply != [] {
        ReplyToConnect(leftover);
      }
      HandleStream(leftover);
    }

    method ReplyToConnect(ghost leftover: Bytes)
      requires DownSafe() && UpSafe() && ClientSafe(leftover)
      requires Logged(cfg, decoder, down, cfg.reply, fromServer, [], false)
      requires stage == Connecting && !chReading && !chWriting && !upstreamWritable && httpsHandshake
      requires pushedDown == [] && cfg.reply != [] && !waits.established && Clean()
      modifies this`downstream, this`sentDown, this`clientFull, this`writeInProgress, this`chReading, this`shutdown,
               this`shutdowns, this`state, this`closed, this`stage, this`pushedDown
      ensures Safe(leftover) && Pumping() && stage != Connected
    {
      WriteConnectReply();
    }

    /** The `handle_stream` part of `ProcessReceivedData`. */
    method HandleStream(leftover: Bytes)
      requires Safe(leftover) && Pumping() && stage != Connected && turnedAway == []
      modifies this
      ensures unchanged(this`waits)
      ensures Idle()
    {
      if leftover != [] {
        KeepEarlyData(leftover);
      } else {
        PumpUpstream();
      }
    }

    /** A client-readable wait, or a posted retry, is over: bytes move on unless something blocks. */
    method ClientReadable(ec: Error)
      requires Idle() && !closed && readInProgress
      modifies this
      ensures Idle() && (stage == old(stage) || stage == Lost)
      ensures waits == old(waits).(client := old(waits).client + Count(ec != NoError))
      ensures stage == Connected && !old(chWriting) ==> |toServer| > |old(toServer)| || PipeBlocked()
      ensures ec != NoError ==> closed
    {
      EndClientRead();
      if ec != NoError {
        ClientGone();
      } else {
        PumpUpstream();
      }
    }

    method EndClientRead()
      requires Idle() && readInProgress
      modifies this`readInProgress
      ensures Safe() && Pumping()
    {
      readInProgress := false;
    }

    method DownlinkWritable(ec: Error)
      requires Idle() && !closed && writeInProgress
      modifies this`downstream, this`sentDown, this`clientFull, this`writeInProgress, this`chReading, this`shutdown,
               this`shutdowns, this`state, this`closed, this`stage, this`waits
      ensures Idle() && (stage == old(stage) || stage == Lost)
      ensures waits == old(waits).(client := old(waits).client + Count(ec != NoError))
      ensures !closed ==> |sentDown| > |old(sentDown)| || clientFull.blocked > old(clientFull).blocked
      ensures ec != NoError ==> closed
    {
      if ec != NoError {
        EndDownlinkWrite();
        ClientGone();
      } else {
        ResumeDownlink();
      }
    }

    method ResumeDownlink()
      requires Idle() && !closed && writeInProgress
      modifies this`downstream, this`sentDown, this`clientFull, this`writeInProgress, this`chReading, this`shutdown,
               this`shutdowns, this`state, this`closed, this`stage
      ensures Idle() && (|sentDown| > |old(sentDown)| || clientFull.blocked > old(clientFull).blocked)
      ensures stage == old(stage) || stage == Lost
    {
      EndDownlinkWrite();
      WriteAgain();
    }

    method EndDownlinkWrite()
      requires Idle() && !closed && writeInProgress
      modifies this`writeInProgress
      ensures Safe() && UpWaits() && !writeInProgress && downstream != [] && (stage == Connected ==> !chReading)
    {
      writeInProgress := false;
    }

    method WriteAgain()
      requires Safe() && !writeInProgress && downstream != [] && (stage == Connected ==> !chReading)
      modifies this`downstream, this`sentDown, this`clientFull, this`writeInProgress, this`chReading, this`shutdown,
               this`shutdowns, this`state, this`closed, this`stage
      ensures Safe() && DownWaits() && (stage == old(stage) || stage == Lost)
      ensures stage == Connecting ==> chReading == old(chReading)
      ensures |sentDown| > |old(sentDown)| || clientFull.blocked > old(clientFull).blocked
    {
      WriteStream();
      WritingIsSafe();
    }

    method ChannelReadable(ec: Error)
      requires Idle() && stage == Connected && chReading
      modifies this
      ensures Idle() && (stage == old(stage) || stage == Lost)
      ensures waits == old(waits).(channel := old(waits).channel + Count(ec != NoError))
      ensures stage == Connected ==> |fromServer| > |old(fromServer)| || serverDry.blocked > old(serverDry).blocked
      ensures ec != NoError ==> stage == Lost
    {
      EndChannelRead();
      if ec != NoError {
        ChannelGone();
      } else {
        ReadUpstream();
      }
    }

    method EndChannelRead()
      requires Idle() && stage == Connected && chReading
      modifies this`chReading
      ensures Safe() && UpWaits() && !chReading && writeInProgress == (downstream != []) && !writeInProgress
    {
      chReading := false;
    }

    method ChannelWritable(ec: Error)
      requires Idle() && stage == Connected && chWriting
      modifies this
      ensures Idle() && (stage == old(stage) || stage == Lost)
      ensures waits == old(waits).(channel := old(waits).channel + Count(ec != NoError))
      ensures stage == Connected ==> |toServer| > |old(toServer)| || PipeBlocked()
      ensures ec != NoError ==> stage == Lost
    {
      EndChannelWrite();
      if ec != NoError {
        ChannelGone();
      } else {
        Sent();
      }
    }

    method EndChannelWrite()
      requires Idle() && stage == Connected && chWriting
      modifies this`chWriting
      ensures Safe() && DownWaits() && !chWriting
    {
      chWriting := false;
    }

    /** `sent`: the channel takes bytes again. */
    method Sent()
      requires Safe() && DownWaits() && stage == Connected && !chWriting
      modifies this
      ensures unchanged(this`waits)
      ensures Idle() && stage != Connecting && (stage == Connected ==> |toServer| > |old(toServer)| || PipeBlocked())
    {
      upstreamWritable := true;
      PumpUpstream();
    }

    /** `disconnected` leaves an idle state, whatever the handshake flags say. */
    method LoseChannel()
      requires DownSafe() && UpSafeButFlags() && ClientSafe() && WhyLost()
      requires Logged(cfg, decoder, down, pushedDown, fromServer, [], up.greeted)
      modifies this`downstream, this`sentDown, this`clientFull, this`writeInProgress, this`chReading, this`shutdown,
               this`shutdowns, this`state, this`closed, this`stage, this`upstreamWritable
      ensures Idle()
      ensures stage == Lost && !upstreamWritable && (old(closed) ==> closed) && FailedWriteCloses()
    {
      Disconnected();
    }

    /** The channel is established, or could not be. */
    method ConnectDone(ec: Error)
      requires Idle() && !closed && stage == Connecting
      modifies this
      ensures Idle() && stage != Connecting
      ensures if ec == NoError then waits == old(waits).(established := true)
              else waits == old(waits).(channel := old(waits).channel + 1)
      ensures ec == NoError && !WhyLost() ==> stage == Connected && up.greeted
      ensures ec != NoError ==> stage == Lost && !up.greeted
    {
      OrderedFacts(cfg, upstream, encoder, up);
      if ec != NoError {
        ChannelGone();
      } else {
        OnConnected();
      }
    }

    method OnConnected()
      requires Idle() && !closed && stage == Connecting
      modifies this
      ensures Idle() && stage != Connecting && waits == old(waits).(established := true)
    {
      OrderedFacts(cfg, upstream, encoder, up);
      stage := Connected;
      waits := waits.(established := true);
      if Unaskable(cfg) {
        OnDisconnect();
      } else {
        Establish();
      }
    }

    method Establish()
      requires DownSafe() && UpSafe() && RelaySafe() && ClientSafe()
      requires stage == Connected && !up.greeted && !chReading && !chWriting && !upstreamWritable && httpsHandshake
      requires writeInProgress == (downstream != [])
      requires waits.established && !Unaskable(cfg) && Clean()
      modifies this
      ensures unchanged(this`waits)
      ensures Idle() && stage != Connecting
    {
      OrderedFacts(cfg, upstream, encoder, up);
      LoggedGreeted(cfg, decoder, down, pushedDown, fromServer, []);
      LoggedFacts(cfg, decoder, down, pushedDown, fromServer, [], false);
      Greet();
      RelayEarlyData();
    }

    method RelayEarlyData()
      requires DownSafe() && UpSafe() && RelaySafe() && ClientSafe() && stage == Connected && up.greeted
      requires !chReading && !chWriting && !upstreamWritable && writeInProgress == (downstream != [])
      requires waits.established && !Unaskable(cfg) && Clean()
      modifies this
      ensures unchanged(this`waits)
      ensures Idle() && stage != Connecting
    {
      ReplayPending();
      StartRelaying();
    }

    method StartRelaying()
      requires Safe() && (stage == Connected || closed) && !chWriting
      requires stage == Connected ==> !chReading && writeInProgress == (downstream != [])
      modifies this
      ensures unchanged(this`waits)
      ensures Idle() && stage != Connecting
    {
      upstreamWritable := true;
      ReadUpstream();
      PumpUpstream();
    }

    /** Queues the opening messages, with slots for those that depend on the server's answers. */
    method Greet()
      requires UpSafe() && stage == Connected && !up.greeted
      modifies this`upstream, this`encoder, this`up, this`socksHandshake, this`methodSelectHandshake, this`authHandshake
      ensures UpSafe() && up.greeted && up.forwarded == []
      ensures !cfg.upstream.Shadow? && httpsHandshake ==> methodSelectHandshake == cfg.upstream.Socks5? && !Negotiated()
    {
      OrderedFacts(cfg, upstream, encoder, up);
      if cfg.upstream.Shadow? {
        upstream, encoder := EncryptOpening(cfg, upstream, encoder, up);
        up := History(true, 0, 0, [], [], Chunks(cfg.dest.Header()));
      } else {
        OpeningOrdered(cfg, upstream, encoder, up);
        GreetPlain();
        up := History(true, cfg.FirstSlots(), if cfg.FirstSlots() > 0 then 1 else 0, [], [], []);
      }
    }

    method GreetPlain()
      requires !cfg.upstream.Shadow? && upstream == [] && !methodSelectHandshake && !authHandshake
      modifies this`upstream, this`socksHandshake, this`methodSelectHandshake, this`authHandshake
      ensures upstream == OpeningQueue(cfg)
      ensures cfg.FirstSlots() == FlagSlots(methodSelectHandshake, authHandshake)
      ensures methodSelectHandshake == cfg.upstream.Socks5? && (authHandshake ==> cfg.AuthRequired())
      ensures httpsHandshake ==> !Negotiated()
    {
      match cfg.upstream {
        case Https =>
          upstream := upstream + [cfg.connectHeader];
        case Socks4 =>
          socksHandshake := true;
          upstream := upstream + [cfg.Socks4Request()];
        case Socks4A =>
          socksHandshake := true;
          upstream := upstream + [cfg.Socks4ARequest()];
        case Socks5 =>
          WriteUpstreamMethodSelectRequest();
      }
    }

    method WriteUpstreamMethodSelectRequest()
      requires cfg.upstream.Socks5?
      modifies this`upstream, this`methodSelectHandshake, this`authHandshake
      ensures upstream == old(upstream) + OpeningQueue(cfg)
      ensures methodSelectHandshake && authHandshake == cfg.AuthRequired()
    {
      upstream := upstream + [cfg.MethodSelect()];
      methodSelectHandshake := true;
      authHandshake := cfg.AuthRequired();
      if cfg.AuthRequired() {
        upstream := upstream + [[]];
      }
      upstream := upstream + [[]];
    }

    /** Bytes that came before the channel was there go first, in the order they came. */
    method ReplayPending()
      requires DownSafe() && UpSafe() && RelaySafe() && stage == Connected && up.greeted && !chWriting
      requires !upstreamWritable && waits.established && !Unaskable(cfg) && Clean()
      requires ClientSafe()
      modifies this`toServer, this`channelFull, this`downstream, this`sentDown, this`clientFull, this`writeInProgress,
               this`chReading, this`shutdown, this`shutdowns, this`state, this`closed, this`stage, this`pendingData,
               this`upstream, this`encoder, this`up, this`client, this`turnedAway, this`fromClient, this`clientDry,
               this`upstreamWritable, this`chWriting, this`readInProgress
      ensures Safe() && !chWriting && (!closed ==> DownSame())
    {
      var early := pendingData != [];
      ReplayKept();
      if early {
        WriteUpstreamInPipe();
      }
    }

    method ReplayKept()
      requires DownSafe() && UpSafe() && RelaySafe() && stage == Connected && up.greeted && !chWriting
      requires !upstreamWritable && waits.established && !Unaskable(cfg) && Clean()
      requires ClientSafe()
      modifies this`closed, this`stage, this`pendingData, this`upstream, this`encoder, this`up, this`upstreamWritable,
               this`chWriting
      ensures Safe() && stage == Connected && !chWriting && !upstreamWritable
    {
      Replay();
    }

    method Replay()
      requires UpSafe() && stage == Connected && !closed && up.greeted && !chWriting && !upstreamWritable
      requires ClientSafe()
      modifies this`closed, this`stage, this`pendingData, this`upstream, this`encoder, this`up, this`upstreamWritable,
               this`chWriting
      ensures UpSafe() && ClientSafe() && pendingData == [] && up.greeted
      ensures stage == Connected && !closed && !chWriting && !upstreamWritable
    {
      var queue := pendingData;
      pendingData := [];
      while queue != []
        invariant UpSafe() && up.greeted && !chWriting && !upstreamWritable && pendingData == []
        invariant Accounted(client, up.forwarded, queue, fromClient, [], turnedAway) && stage == Connected && !closed
        decreases |queue|
      {
        var buf := queue[0];
        ReplayAccounted(client, up.forwarded, queue, fromClient);
        queue := queue[1..];
        OnStreamRead(buf);
      }
    }

    /** The write of a SOCKS reply to the client has ended while the relay is already at work. */
    method ReplyWritten(ec: Error, written: nat)
      requires Idle() && !closed
      modifies this`downstream, this`sentDown, this`clientFull, this`writeInProgress, this`chReading, this`shutdown,
               this`shutdowns, this`state, this`closed, this`stage, this`waits
      ensures Idle() && (ec != NoError ==> closed) && sentDown == old(sentDown)
      ensures stage == old(stage) || stage == Lost
      ensures waits == old(waits).(client := old(waits).client + Count(ec != NoError))
    {
      if ec != NoError {
        ClientGone();
      } else {
        ProcessSentData(NoError, written);
      }
    }

    method DownlinkError()
      requires Idle() && !closed
      modifies this
      ensures Idle() && closed && waits == old(waits).(client := old(waits).client + 1)
    {
      waits := waits.(client := waits.client + 1);
      OnDisconnect();
    }

    /** Whatever was queued for the client before the half-close has been accepted by its socket. */
    lemma HalfCloseAfterDrain()
      requires Idle()
      ensures shutdown ==> sentDown == pushedDown && shutdowns == 1
      ensures stage == Lost && !closed ==> shutdown || writeInProgress
      ensures IsPrefix(sentDown, pushedDown)
    {
      FifoFacts(sentDown, downstream, pushedDown);
    }

    /** The server has got a prefix of: opening messages, early client bytes, later client bytes. */
    lemma ServerSeesOrder()
      requires Idle() && up.greeted && !cfg.upstream.Shadow?
      ensures IsPrefix(toServer, cfg.Released(0) + fromClient)
      ensures up.slots > 0 ==> IsPrefix(toServer, cfg.Released(up.slots))
      ensures up.slots > 0 ==> upstream != [] && (upstream[0] == [] <==> toServer == cfg.Released(up.slots))
      ensures stage == Connected && upstream == [] ==> toServer == cfg.Released(0) + fromClient
    {
      AccountedFacts(client, up.forwarded, pendingData, fromClient, [], turnedAway);
      assert Opened(0, (upstream, encoder, up));
      SentInOrder(cfg, upstream, encoder, up);
      Regroup(cfg.Released(0), up.forwarded, Flat(pendingData));
      PrefixOfSum(toServer, cfg.Released(0) + up.forwarded, Flat(pendingData));
      LoggedPrefix(cfg.Released(0), toServer);
    }

    /** The client's bytes that are accounted for are a prefix of all it sent. */
    lemma LoggedPrefix(opening: Bytes, x: Bytes)
      requires Idle() && IsPrefix(x, opening + client)
      ensures IsPrefix(x, opening + fromClient)
    {
      AccountedFacts(client, up.forwarded, pendingData, fromClient, [], turnedAway);
      assert client <= fromClient;
      assert opening + fromClient == (opening + client) + fromClient[|client|..];
      PrefixOfSum(x, opening + client, fromClient[|client|..]);
    }

    /**
     * Until the server has granted the request the client has got at most the reply; from then on,
     * a prefix of the reply and all the server sent behind its answers, and all of it when nothing
     * is queued. The answers are the due ones, in order, the last one a grant.
     */
    lemma ClientSeesOrder()
      requires Idle() && !cfg.upstream.Shadow?
      ensures IsPrefix(sentDown, pushedDown) && (downstream == [] ==> sentDown == pushedDown)
      ensures down.granted.None? ==> pushedDown == cfg.reply
      ensures down.granted.Some? ==>
        && AnswersInOrder(cfg, down) && down.piece <= fromServer
        && Answers(cfg, down) <= fromServer && pushedDown == cfg.reply + fromServer[|Answers(cfg, down)|..]
        && (if cfg.upstream.Https? then cfg.parseResponse(down.piece) == Some(|down.granted.value|)
            else RequestParsers.SocksReplyLength(cfg.upstream, down.granted.value) == Some(|down.granted.value|))
      ensures stage == Connected ==> (down.granted.Some? <==> Negotiated())
    {
      FifoFacts(sentDown, downstream, pushedDown);
      LoggedFacts(cfg, decoder, down, pushedDown, fromServer, [], up.greeted);
      assert down.got + [] == down.got;
      if stage == Connected && up.greeted {
        InStepFacts(cfg, down, methodSelectHandshake, authHandshake, socksHandshake, httpsHandshake);
      }
      if down.granted.Some? {
        GrantedPayload(cfg, decoder, down, pushedDown);
      } else {
        NotGranted(cfg, decoder, down, pushedDown);
      }
    }

    /** If the channel is lost before the grant, the last piece was no answer, or there was none. */
    lemma RefusedForAReason()
      requires Idle() && !cfg.upstream.Shadow? && down.granted.None?
      ensures fromServer == Answers(cfg, down) + down.refused && AnswersInOrder(cfg, down)
      ensures down.refused != [] ==> stage == Lost && Refusable(cfg, down, down.refused)
    {
      LoggedFacts(cfg, decoder, down, pushedDown, fromServer, [], up.greeted);
      assert down.got + [] == down.got;
      if stage == Connected {
        InStepFacts(cfg, down, methodSelectHandshake, authHandshake, socksHandshake, httpsHandshake);
      }
      NotGranted(cfg, decoder, down, pushedDown);
      assert Opened(0, (decoder, down, pushedDown));
    }

    /**
     * The channel is given up exactly for a reason: a call or a wait that failed, a request that
     * cannot be asked, early bytes over the limit, or a piece of the server's that is not the answer
     * due or breaks the stream. And the connection is closed only for one that ends it.
     */
    lemma GivenUpForAReason()
      requires Idle()
      ensures (stage == Lost <==> WhyLost()) && (closed ==> WhyClosed())
      ensures turnedAway != [] ==> |Flat(pendingData)| + |turnedAway| > kMaxHeaderSize
      ensures cfg.upstream.Shadow? ==> (down.refused != [] <==> BrokenStream(cfg.aead, fromServer))
    {
      AccountedFacts(client, up.forwarded, pendingData, fromClient, [], turnedAway);
      LoggedFacts(cfg, decoder, down, pushedDown, fromServer, [], up.greeted);
      assert down.got + [] == down.got;
      assert Opened(0, (decoder, down, pushedDown));
    }

    lemma ClientSeesPlaintext()
      requires Idle() && cfg.upstream.Shadow?
      ensures IsPrefix(sentDown, cfg.reply + Flat(Decrypted(cfg.aead, fromServer).frames))
      ensures downstream == [] ==> sentDown == cfg.reply + Flat(Decrypted(cfg.aead, fromServer).frames)
    {
      FifoFacts(sentDown, downstream, pushedDown);
      LoggedFacts(cfg, decoder, down, pushedDown, fromServer, [], up.greeted);
      assert down.got + [] == down.got;
      assert Opened(0, (decoder, down, pushedDown));
    }

    /** What a Shadowsocks server can decrypt is a prefix of the destination and the client's bytes. */
    lemma ServerDecryptsOrder()
      requires Idle() && up.greeted && cfg.upstream.Shadow?
      ensures IsPrefix(Flat(Decrypted(cfg.aead, toServer).frames), cfg.dest.Header() + fromClient)
      ensures stage == Connected && upstream == [] ==>
        Flat(Decrypted(cfg.aead, toServer).frames) == cfg.dest.Header() + fromClient
    {
      assert Opened(0, (upstream, encoder, up));
      var x := Flat(Decrypted(cfg.aead, toServer).frames);
      AccountedFacts(client, up.forwarded, pendingData, fromClient, [], turnedAway);
      SentDecrypts(cfg, upstream, encoder, up);
      Regroup(cfg.dest.Header(), up.forwarded, Flat(pendingData));
      PrefixOfSum(x, cfg.dest.Header() + up.forwarded, Flat(pendingData));
      LoggedPrefix(cfg.dest.Header(), x);
    }

    /** And what it gets, with what is queued, are packets under numbers of their own. */
    lemma ServerGetsPackets()
      requires Idle() && up.greeted && cfg.upstream.Shadow?
      ensures FrameSized(up.chunks) && SealedInOrder(cfg.aead, cfg.salt, up.chunks, toServer + Flat(upstream))
      ensures IsPrefix(Flat(up.chunks), cfg.dest.Header() + fromClient)
    {
      SentSealed(cfg, upstream, encoder, up);
      AccountedFacts(client, up.forwarded, pendingData, fromClient, [], turnedAway);
      Regroup(cfg.dest.Header(), up.forwarded, Flat(pendingData));
      PrefixOfSum(Flat(up.chunks), Flat(up.chunks), Flat(pendingData));
      LoggedPrefix(cfg.dest.Header(), Flat(up.chunks));
    }

    /** Until the opening messages are out, all the client sent is kept, and that is bounded. */
    lemma EarlyDataBounded()
      requires Idle() && !up.greeted
      ensures |Flat(pendingData)| <= kMaxHeaderSize && (!closed ==> fromClient == Flat(pendingData))
    {
      AccountedFacts(client, up.forwarded, pendingData, fromClient, [], turnedAway);
      OrderedFacts(cfg, upstream, encoder, up);
    }
  }

  datatype Event =
    | EvClientReadable(ec: Error)
    | EvDownlinkWritable(ec: Error)
    | EvChannelReadable(ec: Error)
    | EvChannelWritable(ec: Error)
    | EvConnectDone(ec: Error)
    | EvDownlinkError
    | EvReplyWritten(ec: Error, written: nat)
  {
    predicate ClientError() {
      EvDownlinkError? || ((EvClientReadable? || EvDownlinkWritable? || EvReplyWritten?) && ec != NoError)
    }

    predicate ChannelError() {
      (EvChannelReadable? || EvChannelWritable? || EvConnectDone?) && ec != NoError
    }
  }

  /** One event; if no wait for it is outstanding, or after closing, it is not delivered. */
  method HandleEvent(c: CliConnection, event: Event)
    requires c.Idle()
    modifies c
    ensures c.Idle() && (old(c.closed) ==> c.closed) && (old(c.stage) != Connecting ==> c.stage != Connecting)
    ensures c.waits.client == old(c.waits).client || event.ClientError()
    ensures c.waits.channel == old(c.waits).channel || event.ChannelError()
    ensures c.waits.established == old(c.waits).established || event == EvConnectDone(NoError)
    ensures (event.EvConnectDone? ==> c.stage != Connecting) && (event.EvDownlinkError? ==> c.closed)
  {
    if c.closed {
      return;
    }
    match event {
      case EvClientReadable(ec) => if c.readInProgress { c.ClientReadable(ec); }
      case EvDownlinkWritable(ec) => if c.writeInProgress { c.DownlinkWritable(ec); }
      case EvChannelReadable(ec) => if c.stage == Connected && c.chReading { c.ChannelReadable(ec); }
      case EvChannelWritable(ec) => if c.stage == Connected && c.chWriting { c.ChannelWritable(ec); }
      case EvConnectDone(ec) => if c.stage == Connecting { c.ConnectDone(ec); }
      case EvDownlinkError => c.DownlinkError();
      case EvReplyWritten(ec, written) => c.ReplyWritten(ec, written);
    }
  }

  /** Any run. */
  method Run(cfg: Config, leftover: Bytes, events: seq<Event>) returns (c: CliConnection)
    requires cfg.Ok()
    ensures fresh(c) && c.cfg == cfg && c.Idle() && c.shutdowns <= 1
    ensures c.stage == Connected ==>
      && (c.writeInProgress <==> c.downstream != []) && (c.chReading <==> c.downstream == [])
      && (c.chWriting <==> c.upstream != []) && (c.chWriting || c.readInProgress)
    ensures c.stage == Connecting && !c.closed ==> c.readInProgress || c.pendingData != []
    ensures c.stage == Lost && !c.closed ==> c.shutdown || c.writeInProgress
    ensures (c.stage == Lost <==> c.WhyLost()) && (c.closed ==> c.WhyClosed())
    ensures c.waits.client > 0 ==> exists i :: 0 <= i < |events| && events[i].ClientError()
    ensures c.waits.channel > 0 ==> exists i :: 0 <= i < |events| && events[i].ChannelError()
    ensures c.waits.established ==> exists i :: 0 <= i < |events| && events[i] == EvConnectDone(NoError)
    ensures forall i :: 0 <= i < |events| && events[i].EvConnectDone? ==> c.stage != Connecting
    ensures forall i :: 0 <= i < |events| && events[i].EvDownlinkError? ==> c.closed
  {
    c := new CliConnection(cfg);
    c.Start(leftover);
    for i := 0 to |events|
      invariant fresh(c) && c.cfg == cfg && c.Idle()
      invariant c.waits.client > 0 ==> exists k :: 0 <= k < i && events[k].ClientError()
      invariant c.waits.channel > 0 ==> exists k :: 0 <= k < i && events[k].ChannelError()
      invariant c.waits.established ==> exists k :: 0 <= k < i && events[k] == EvConnectDone(NoError)
      invariant forall k :: 0 <= k < i && events[k].EvConnectDone? ==> c.stage != Connecting
      invariant forall k :: 0 <= k < i && events[k].EvDownlinkError? ==> c.closed
    {
      HandleEvent(c, events[i]);
    }
    c.GivenUpForAReason();
  }
}
