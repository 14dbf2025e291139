# Verified model of the yass client

This project models the hardest parts of yass, a proxy client that relays a local client's
connection to an upstream server (HTTPS proxy, SOCKS4/4A/5, Shadowsocks, HTTP/2), and proves that
they keep what they promise in every run. `dafny verify dfyconfig.toml` checks all of it.

- `Relay.dfy` is `CliConnection` for every upstream but HTTP/2: a class with the source's queues and
  flags, one method per source function, and I/O results chosen freely. `Idle` is what holds between
  two events; every handler is proved to restore it, so it holds in every run (`Run`). Ghost logs
  that only the socket calls write to (and `Start`, for bytes that came with the handshake) record
  what went through each socket, and ghost counters what the calls and the event loop reported; the
  theorems at the end of the class relate the logs, and say for what reasons a connection ends.
- `UpstreamQueue.dfy`, `UpstreamHistory.dfy` and `DownstreamHistory.dfy` hold the invariants of the
  two directions as facts about values, `UpstreamMessages.dfy` the opening messages and
  `RequestParsers.dfy` the parsers a server of the same program reads them with.
- `FrameCode.dfy` proves once that a decoder of self-delimiting frames does not depend on how its
  input is cut. `Padding.dfy` (HTTP/2 first-frames padding) and `Shadowsocks.dfy` (the AEAD stream,
  both ways) are instances.
- `KeepAlive.dfy` is the HTTP/1.1 keep-alive re-framing, against a simple rule (`Follow`).
- `DataFrame.dfy` is the HTTP/2 data source, `IoQueue.dfy` the ring behind the queues.
- `HandOff.dfy` is the worker thread and the GUI thread as interleaved steps.
- `Rate.dfy`, `ByteCount.dfy`, `Deps.dfy` are the rate option, the byte-count scaler and the
  dependency closure of the sysroot script. `Bytes.dfy` has what all share.

## Assumptions

- The AEAD primitive is a parameter of which only `Sound` is asked: opening undoes sealing under the
  same salt and packet number, and a sealed text is longer by the tag.
- The HTTP request parser is a parameter of which only `SelfDelimiting` is asked: a header is found
  only when all of it is there. The HTTP response parser is a parameter of which nothing is asked.
- What a host name or literal is resolved to is a free choice at every lookup, of which only
  `Addressed` is asked: a printed address reads back as itself. A host that every lookup leaves as
  it is, is `Canonical`: an address as it is printed, or a name that the upstream server resolves.
- A SOCKS5 server answers a negotiation message only after it has got all of it, and then with the
  two bytes of the answer (`ChannelReadSome`).
- The clock is a free choice, and so are the random padding and the salt.

## Where the code does not do what one would expect

- A failed parse of a later keep-alive request clears the keep-alive flag, so the buffer put away
  for completion is never picked up and the branch that would do so is dead. `ReceiveAll` proves
  that bytes are lost if and only if a read cuts a header; `SecondHeaderCut` is an example.
- A later keep-alive request is compared with what its host was resolved to, not with the host. So a
  second request to the same host stays on the channel if and only if the host is canonical, which a
  name resolved locally for a SOCKS4 or SOCKS5 upstream is not, nor is `0:0:0:0:0:0:0:1`; otherwise
  the channel is dropped (`OnReadHttpRequestAfterReuse`, `Serve`; `SecondRequestReconnects` is an
  example). The debug check that the two agree fails in the same cases (`RunAny`).
- A later keep-alive request for another host that is empty, longer than 255 bytes or has port 0 is
  refused after its buffer was handed over, and the caller looks at that buffer (`NoBuffer`).
- A chunked keep-alive request read together with bytes behind its announced length strands those
  bytes (`OnReadHttpRequest`, `Stranded`); `ChunkedBodyLost` is an example.
- The in-place header rewrite measures the payload after growing the buffer, so it is exact if and
  only if the header does not grow (`RewriteExact`). The move that precedes it stays inside the
  buffer if and only if the header grows by at most the buffer's offset (`RewriteInBounds`).
- A chunk of zero bytes, or of more than 65535, does not survive padding (`PaddingUndone`).
- A rate above INT64_MAX prints to a text that does not parse (`PrintParse`).
- A domain destination that lacks only its last byte is taken for whole: by the SOCKS5 parser if
  the name is not empty (`CutAddress`), by the Shadowsocks parser if it has two bytes or more
  (`CutSsAddress`).
- The Shadowsocks parser asks for one byte more than the header has before it looks at an address,
  so a bare IPv4 or IPv6 header, or that of an empty name, is waited upon although all of it is
  there (`SsAddressRoundTrip`, with `BareHeaderWaits` as an example).
- The authentication message starts with version 5, where section 2 of RFC 1929 has 1; client and
  server of the program agree on it.
- `disconnected` calls `WriteStream` with a write wait outstanding, which the source guards with a
  debug-only check and then returns; the model returns.

## Model

| member | source | states |
|---|---|---|
| `Relay.Run` | src/cli/cli_connection.cpp:879-1137 | every run, whatever the order of readable, writable, connect, error and reply-written events, the read and write lengths and the errors of socket calls: with a live channel exactly one of the downlink-writable and channel-readable waits is outstanding, decided by `downstream_` being empty; a channel-writable wait is outstanding exactly when `upstream_` is not empty; otherwise the client is being read; after the channel is lost the connection is half-closed or about to be; the half-close happens at most once; the channel is given up exactly for one of the reasons of `GivenUpForAReason`, errors of waits come from the events, a channel is up only after a connect without error, and no connect leaves the connection connecting |
| `Relay.HandleEvent` | src/cli/cli_connection.cpp:879-1137 | one event: the state stays idle, what is closed stays closed, an error of a wait is counted exactly where the event reports one, a connect decides the stage, a downlink error closes |
| `Relay.CliConnection.ServerSeesOrder` | src/cli/cli_connection.cpp:1359-1490 | SOCKS and HTTPS: what the channel took is always a prefix of method selection, authentication (iff both credentials are set), request, then all bytes read from the client in order; while a placeholder is open it is a prefix of the messages alone, and all of those released exactly if a placeholder is at the head; with the queue empty it is all of it |
| `Relay.CliConnection.ServerDecryptsOrder` | src/cli/cli_connection.cpp:2633-2649 | Shadowsocks: what the server can decrypt of the bytes sent so far is a prefix of the destination header and the client bytes; on a live channel with the queue empty it is all of them |
| `Relay.CliConnection.ServerGetsPackets` | src/net/cipher.cpp:469-532 | Shadowsocks: what was sent and what is queued are the salt and packets in which number 2k seals the size of chunk k, high byte first, and number 2k+1 the chunk, in terms of the sealing primitive alone; the chunks are a prefix of the destination header and the client bytes |
| `Relay.CliConnection.ClientSeesOrder` | src/cli/cli_connection.cpp:1139-1278 | SOCKS and HTTPS: until the request is granted the client is given the CONNECT reply and nothing else; from then on the reply and then every byte read from the channel behind the server's answers, which are the offered method, the authentication success iff it was due, and one granting reply or response header; what the client has got is a prefix of that, and all of it when nothing is queued; on a live channel granted means negotiated; an HTTP grant is as long as the response parser says of the piece it came in |
| `Relay.CliConnection.RefusedForAReason` | src/cli/cli_connection.cpp:1383-1490 | before the grant every byte read from the channel is one of the due answers, or belongs to one last piece that is not the answer that was due, and then the channel is lost |
| `Relay.CliConnection.GivenUpForAReason` | src/cli/cli_connection.cpp:2588-2631 | the channel is given up exactly if a socket call or a wait failed, the server's piece is refused or breaks the stream, early bytes exceed the limit, or a SOCKS4 request has an IPv6 destination; the connection is closed only for a failure of the client's side, a failed write to the channel, the limit or that request |
| `Relay.CliConnection.ClientSeesPlaintext` | src/cli/cli_connection.cpp:1246-1251 | Shadowsocks: what the client has got is a prefix of the reply and the decryption of all bytes read from the channel, and all of it when nothing is queued |
| `Relay.CliConnection.HalfCloseAfterDrain` | src/cli/cli_connection.cpp:2314-2330 | a half-close means every byte queued for the client was accepted by its socket; a lost channel means half-closed or a write wait outstanding |
| `Relay.CliConnection.EarlyDataBounded` | src/cli/cli_connection.cpp:2270-2281 | before the opening messages are out, `pending_data_` holds exactly what was read from the client and never more than 1024*1024+1024 bytes |
| `Relay.CliConnection.WriteDownstream` | src/cli/cli_connection.cpp:997-1037 | the write loop ends, keeps order and content, and says "no error" exactly when the queue is empty |
| `Relay.CliConnection.WriteFront` | src/cli/cli_connection.cpp:1002-1026 | one downlink write: accepted bytes leave the queue front in order; a buffer is popped only when fully written |
| `Relay.CliConnection.WriteStream` | src/cli/cli_connection.cpp:982-1053 | from any state without a write wait it leaves a write wait for a non-empty queue, a channel-read wait for an empty one, a half-close if the channel is gone |
| `Relay.CliConnection.WriteStreamAsync` | src/cli/cli_connection.cpp:1055-1076 | the downlink-writable wait is armed only when none is outstanding |
| `Relay.CliConnection.ReadUpstreamAsync` | src/cli/cli_connection.cpp:1117-1137 | the channel-readable wait is armed only on a live channel and when none is outstanding |
| `Relay.CliConnection.ReadStream` | src/cli/cli_connection.cpp:879-917 | the client-readable wait is armed only when none is outstanding, and not after closing |
| `Relay.CliConnection.ProcessSentData` | src/cli/cli_connection.cpp:2128-2166 | an error closes the connection; bytes sent on a lost channel with an empty queue lead to the half-close; nothing else changes |
| `Relay.CliConnection.OnStreamWrite` | src/cli/cli_connection.cpp:2314-2330 | flushing after a write never starts a second write; the half-close follows the last byte |
| `Relay.CliConnection.OnDownstreamWrite` | src/cli/cli_connection.cpp:2353-2366 | writing starts only if no write wait is outstanding |
| `Relay.CliConnection.OnDownstreamWriteFlush` | src/cli/cli_connection.cpp:2347-2351 | a flush with a write wait outstanding, or nothing queued, changes nothing |
| `Relay.CliConnection.WriteConnectReply` | src/cli/cli_connection.cpp:972-980 | the reply to CONNECT, a constant of the connection, is queued before anything else |
| `Relay.CliConnection.Disconnected` | src/cli/cli_connection.cpp:2615-2631 | after `disconnected` either all queued bytes are out and the downlink is half-closed, or a write wait is outstanding, or the connection is closed |
| `Relay.CliConnection.Close` | src/cli/cli_connection.cpp:198-215 | closing closes the channel too |
| `Relay.CliConnection.OnUpstreamWriteFlush` | src/cli/cli_connection.cpp:2368-2392 | a channel-writable wait is armed for a non-empty queue, never twice, never on a dead channel |
| `Relay.CliConnection.Forward` | src/cli/cli_connection.cpp:1915-1923 | client bytes go behind everything queued, encrypted for Shadowsocks, and the order invariant is kept |
| `Relay.CliConnection.OnStreamRead` | src/cli/cli_connection.cpp:2270-2312 | bytes are passed on with a live channel; without one they are kept in order or, over the limit, the connection is closed |
| `Relay.CliConnection.KeepEarlyData` | src/cli/cli_connection.cpp:2270-2281 | early bytes are appended to what is kept, or close the connection, exactly if they exceed the limit |
| `Relay.CliConnection.GetNextUpstreamBuf` | src/cli/cli_connection.cpp:1781-1946 | a buffer it hands out is the non-empty queue head; an open placeholder at the head yields "try again" and nothing passes it; an error means closed |
| `Relay.CliConnection.SendFront` | src/cli/cli_connection.cpp:1727-1758 | one channel write moves a prefix of the head, keeps order, pops only whole buffers; a failed call closes the connection |
| `Relay.CliConnection.MoveUpstream` | src/cli/cli_connection.cpp:1704-1769 | the pipe loop ends whatever the client sends, keeps order both ways and stops with an empty queue only to read on |
| `Relay.CliConnection.WriteUpstreamInPipe` | src/cli/cli_connection.cpp:1689-1779 | with a write wait outstanding it does nothing; else it moves bytes unless this very call found the client without bytes, the channel full, or an open placeholder at the head; on return an empty queue means the client is being read; the other direction is untouched unless the connection closes |
| `Relay.CliConnection.ReadUpstream` | src/cli/cli_connection.cpp:1078-1115 | on return the waits towards the client are settled and the waits towards the server are as before |
| `Relay.CliConnection.GetNextDownstreamBuf` | src/cli/cli_connection.cpp:1139-1278 | a piece read is the due answer, payload queued whole, or a refused answer that loses the channel; a buffer is reported exactly when one is queued; on a live channel this call got bytes or found none |
| `Relay.CliConnection.WriteUpstreamMethodSelectRequest` | src/cli/cli_connection.cpp:1359-1381 | queues the method selection and one placeholder, or two when both credentials are set, and raises the flags that go with them |
| `Relay.CliConnection.ReadUpstreamMethodSelectResponse` | src/cli/cli_connection.cpp:1383-1428 | accepts exactly version 5 with the method that was offered; then the next message fills the placeholder at the head; anything else loses the channel |
| `Relay.CliConnection.WriteUpstreamAuthRequest` | src/cli/cli_connection.cpp:1430-1452 | the authentication message takes the first placeholder, in front of all client bytes |
| `Relay.CliConnection.ReadUpstreamAuthResponse` | src/cli/cli_connection.cpp:1454-1490 | accepts exactly version 5 with status success; then the request fills the last placeholder |
| `Relay.CliConnection.WriteUpstreamSocks5Request` | src/cli/cli_connection.cpp:1565-1609 | the request takes the last placeholder, in front of all client bytes |
| `Relay.CliConnection.ReadUpstreamSocksResponse` | src/cli/cli_connection.cpp:1611-1687 | fails exactly for a malformed or refused reply, and then the channel is lost; otherwise exactly the reply is cut off and the rest is payload |
| `Relay.CliConnection.ReadUpstreamHttpsHandshake` | src/cli/cli_connection.cpp:1280-1318 | fails exactly if the response parser finds no granting header inside the piece, and then the channel is lost; otherwise as many bytes as the parser says are cut off and the rest is payload |
| `UpstreamMessages.Config.GrantedLength` | src/cli/cli_connection.cpp:1287-1296 | the parser's length, exactly if it finds a header that ends inside the buffer |
| `RequestParsers.Socks5AnswerAccepted` | src/cli/cli_connection.cpp:1629-1670 | every positive SOCKS5 answer, with any bound address, is accepted and cut off exactly |
| `RequestParsers.Socks5AnswerOnly` | src/cli/cli_connection.cpp:1629-1670 | what is cut off is version 5, status granted, reserved zero and a whole address |
| `RequestParsers.Socks4AnswerAccepted` | src/cli/cli_connection.cpp:1614-1627 | every positive SOCKS4 answer, with any port and address, is accepted and cut off exactly |
| `RequestParsers.Socks4AnswerOnly` | src/cli/cli_connection.cpp:1614-1627 | a SOCKS4 answer is accepted exactly if it starts with zero and the granting status and has eight bytes, and those are cut off |
| `RequestParsers.SocksReplyLength` | src/cli/cli_connection.cpp:1614-1674 | an accepted reply lies inside the buffer |
| `Relay.CliConnection.RelayFrames` | src/cli/cli_connection.cpp:1248-1250 | each frame the decoder completes is queued, in order, behind the fixed reply, and no other byte; the piece is refused exactly if it breaks the stream |
| `Relay.CliConnection.Greet` | src/cli/cli_connection.cpp:2505-2571 | the opening messages are queued first and no client byte is passed on before them |
| `Relay.CliConnection.ReplayPending` | src/cli/cli_connection.cpp:2573-2583 | early bytes follow the opening messages in the order they came, and nothing stays behind |
| `Relay.CliConnection.OnConnected` | src/cli/cli_connection.cpp:2394-2591 | `connected` leaves all waits settled |
| `Relay.CliConnection.ClientReadable` | src/cli/cli_connection.cpp:902-916 | leaves an idle state, and the wake-up is not wasted: unless a channel write wait is outstanding, bytes reach the server, or during this call the client was found to have none or the channel to take none, or an answer is missing; an error of the wait closes, and the stage changes only to lost |
| `Relay.CliConnection.DownlinkWritable` | src/cli/cli_connection.cpp:1062-1075 | leaves an idle state; bytes reach the client, or its socket was found full during this call, or the connection is closed; an error of the wait closes, and the stage changes only to lost |
| `Relay.CliConnection.ChannelReadable` | src/cli/cli_connection.cpp:1125-1136 | leaves an idle state; bytes come from the server, or it was found to have none during this call, or the channel is lost; an error of the wait loses the channel, and the stage changes only to lost |
| `Relay.CliConnection.ChannelWritable` | src/cli/cli_connection.cpp:2598-2613 | leaves an idle state; bytes reach the server, or during this call the channel was found full or the client without bytes, or an answer is missing; an error of the wait loses the channel, and the stage changes only to lost |
| `Relay.CliConnection.ConnectDone` | src/cli/cli_connection.cpp:2258-2267 | without an error, unless a reason to give up turns up on the way, the channel is connected and the opening messages are queued; with one the channel is lost and nothing was queued; idle either way |
| `Relay.CliConnection.DownlinkError` | src/cli/cli_connection.cpp:866-877 | the handler closes |
| `Relay.CliConnection.ReplyWritten` | src/cli/cli_connection.cpp:932-950 | the write of a SOCKS reply may end at any time while the relay is at work: the state stays idle, no relayed byte is written by it, an error closes |
| `Relay.CliConnection.Start` | src/cli/cli_connection.cpp:2096-2113 | after the client handshake, with the configured reply queued first, the state is idle: the client is read, or its leftover bytes are kept |
| `UpstreamHistory.SentInOrder` | src/cli/cli_connection.cpp:1359-1381 | at every moment sent bytes are a prefix of messages then client bytes; no client byte before the request |
| `UpstreamHistory.SentDecrypts` | src/cli/cli_connection.cpp:2633-2649 | sent bytes decrypt to a prefix of header and client bytes; with an empty queue to exactly the chunks encrypted |
| `UpstreamHistory.SentSealed` | src/net/cipher.cpp:469-532 | sent and queued bytes are packets under numbers of their own |
| `UpstreamHistory.SendKeepsOrder` | src/cli/cli_connection.cpp:1727-1750 | a write of any length keeps the order |
| `UpstreamHistory.ForwardKeepsOrder` | src/cli/cli_connection.cpp:1915-1919 | pushing client bytes keeps the order |
| `UpstreamHistory.AnswerKeepsOrder` | src/cli/cli_connection.cpp:1430-1452 | filling the placeholder at the head keeps the order |
| `UpstreamHistory.EncryptKeepsOrder` | src/cli/cli_connection.cpp:2633-2649 | encrypting into the last buffer, partly sent or not, appends to the stream |
| `UpstreamHistory.OpeningOrdered` | src/cli/cli_connection.cpp:1359-1381 | the opening queue is in order |
| `UpstreamQueue.HeadIsSlot` | src/cli/cli_connection.cpp:1785-1793 | the head of the queue is a placeholder exactly when every released byte has left |
| `UpstreamQueue.WriteKeepsOrder` | src/cli/cli_connection.cpp:1735-1750 | partial writes and placeholders: what is sent and what is queued before the first placeholder stay the released messages |
| `UpstreamQueue.FillKeepsOrder` | src/cli/cli_connection.cpp:1436-1447 | the filled placeholder stands before all client bytes |
| `UpstreamMessages.Config.ReleasedIsPrefix` | src/cli/cli_connection.cpp:1364-1380 | the messages released so far are a prefix of the whole negotiation |
| `UpstreamMessages.Destination.HeaderBytes` | src/net/ss_request.hpp:41-74 | on the wire: the type byte, for a name its length byte, the address, and the port with its high byte first |
| `DownstreamHistory.PayloadRelayed` | src/cli/cli_connection.cpp:1226-1248 | payload read is payload queued |
| `DownstreamHistory.FramesRelayed` | src/cli/cli_connection.cpp:1249-1250 | frames decrypted are frames queued |
| `RequestParsers.NegotiationUnderstood` | src/net/socks5_request_parser.hpp:53-152 | a server reading the stream message by message gets the offered method, the credentials iff both are set, a CONNECT with reserved byte 0 to the destination, and is left with exactly the client bytes |
| `RequestParsers.AddressRoundTrip` | src/net/socks5_request_parser.hpp:196-246 | SOCKS5: a destination is read back if and only if its port has 16 bits and its name at most 255 bytes |
| `RequestParsers.CutAddress` | src/net/socks5_request_parser.hpp:196-246 | SOCKS5: an incomplete header is waited for, except that of a non-empty name lacking only its last byte, which is taken for whole |
| `RequestParsers.SsAddressRoundTrip` | src/net/ss_request_parser.hpp:53-118 | Shadowsocks: a destination is read back if and only if its port has 16 bits, its name at most 255 bytes, and something follows the header or it is that of a non-empty name |
| `RequestParsers.BareHeaderWaits` | src/net/ss_request.hpp:84-94 | Shadowsocks: the failing input, a bare IPv4 header |
| `RequestParsers.CutSsAddress` | src/net/ss_request_parser.hpp:53-118 | Shadowsocks: an incomplete header is waited for, except that of a name of two bytes or more lacking only its last byte |
| `RequestParsers.Socks5RoundTrip` | src/net/socks5_request_parser.hpp:179-258 | the SOCKS5 request is read back as a CONNECT with reserved byte 0 under the same condition |
| `RequestParsers.MethodSelectRoundTrip` | src/net/socks5_request_parser.hpp:53-77 | the method selection is read back |
| `RequestParsers.AuthRoundTrip` | src/net/socks5_request_parser.hpp:103-152 | the credentials are read back if and only if both have 1 to 255 bytes |
| `RequestParsers.CountedRoundTrip` | src/net/socks5_request_parser.hpp:117-133 | a counted string is read back if and only if it has 1 to 255 bytes |
| `RequestParsers.Socks4RoundTrip` | src/net/socks4_request_parser.hpp:53-101 | a SOCKS4 request is read back as a CONNECT if and only if its port has 16 bits and its address is not of the form 0.0.0.x |
| `RequestParsers.Socks4ARoundTrip` | src/net/socks4_request_parser.hpp:53-101 | a SOCKS4A request is read back as a CONNECT if and only if its port has 16 bits and the name has no zero byte |
| `Shadowsocks.EncryptData` | src/cli/cli_connection.cpp:2633-2649 | for any plaintext and any state of the queue: only the last buffer grows (or one is made), by exactly the stream that carries the plaintext, cut into frames; the packet counter goes on; the whole stream is packets under consecutive numbers, none used twice, size before chunk |
| `Shadowsocks.ChunksWhole` | src/cli/cli_connection.cpp:2643-2648 | a plaintext of n bytes gives ceil(n / SS_FRAME_SIZE) chunks of 1 to SS_FRAME_SIZE bytes that concatenate to it |
| `Shadowsocks.EncryptAppends` | src/net/cipher.cpp:275-293 | one call adds the salt, if first, and one frame at the right packet numbers |
| `Shadowsocks.EncryptSeals` | src/net/cipher.cpp:275-293 | one call takes the next two packet numbers, for the size and for the chunk |
| `Shadowsocks.WireSealedInOrder` | src/net/cipher.cpp:469-532 | the stream in terms of the sealing primitive alone: packet i is sealed under number i; even packets hold a chunk's size, high byte first, odd ones the chunk |
| `Shadowsocks.SealedFrameOpens` | src/net/cipher.cpp:469-532 | a sealed frame opens to its message and is used up whole |
| `Shadowsocks.OpenFrame` | src/net/cipher.cpp:364-433 | a frame taken lies inside the buffer |
| `Shadowsocks.OpenFrameMeans` | src/net/cipher.cpp:364-433 | a frame is taken exactly if its size opens under the first number and its payload under the next; it is called broken exactly if neither that nor more bytes can help |
| `Shadowsocks.OpenFrameStable` | src/net/cipher.cpp:364-433 | a verdict on the front of the buffer does not depend on bytes behind it |
| `Shadowsocks.ProcessBytes` | src/net/cipher.cpp:224-273 | after any piece the decoder stands where reading everything at once would leave it; the frames handed over are exactly the new ones, none empty; in terms of the opening primitive alone, frame k is what numbers 2k and 2k+1 open; an error is reported exactly for a packet that is all there and does not open or has no size |
| `Shadowsocks.DecryptedOpens` | src/net/cipher.cpp:364-433 | what a stream decrypts to, in terms of the opening primitive alone, and that what is left opens as no frame |
| `Shadowsocks.DecryptAll` | src/net/cipher.cpp:224-273 | any cutting of the ciphertext gives the same frames |
| `Shadowsocks.DecryptWire` | src/net/cipher.cpp:275-293 | decryption undoes encryption, with nothing left over |
| `Shadowsocks.PartialWireIsPrefix` | src/net/cipher.cpp:224-273 | a stream broken off anywhere decrypts to a prefix of the plaintext |
| `FrameCode.ScanResumes` | src/net/cipher.cpp:225-232 | decoding may stop at any byte and resume from the kept tail |
| `FrameCode.ScanMonotone` | src/net/cipher.cpp:245-272 | a prefix of a stream decodes to a prefix |
| `FrameCode.ScanEncoded` | src/cli/cli_connection.cpp:367-377 | encoded frames decode to their messages in order, tail kept |
| `Padding.PaddingUndone` | src/net/padding.cpp:40-89 | removing padding undoes adding it, whatever follows, if and only if the chunk has 1 to 65535 bytes |
| `Padding.PaddedFrame` | src/net/padding.cpp:40-62 | on the wire: the size with its high byte first, the padding's size, the chunk, zeros |
| `Padding.RemovalMeans` | src/net/padding.cpp:64-89 | a frame is taken exactly if it is all there and its size, high byte first, is not zero; a size of zero is an error |
| `Padding.CutFrameWaits` | src/net/padding.cpp:66-81 | a frame missing any byte is left alone |
| `Padding.PaddingRoundTrip` | src/cli/cli_connection.cpp:1906-1912 | what a sender sends means what it was given |
| `Padding.PartialDeliveryIsPrefix` | src/cli/cli_connection.cpp:348-387 | what is delivered at any moment is a prefix of what was sent |
| `Padding.DeliveredGrows` | src/cli/cli_connection.cpp:367-382 | later bytes never take back delivered ones |
| `Padding.AtMostFirstPaddings` | src/cli/cli_connection.cpp:367-382 | at most `kFirstPaddings` frames are unpadded |
| `Padding.PassesThrough` | src/cli/cli_connection.cpp:383-386 | behind the padded frames bytes are delivered as they are |
| `Padding.PaddingReceiver.OnDataForStream` | src/cli/cli_connection.cpp:348-387 | after any payload, delivered bytes are the meaning of everything received |
| `Padding.PaddingReceiver.Reassemble` | src/cli/cli_connection.cpp:366-378 | the loop takes every whole frame and no other byte |
| `Padding.PaddingSender.SendChunk` | src/cli/cli_connection.cpp:2290-2296 | the first `kFirstPaddings` chunks are padded, the others not |
| `Padding.ReceiveAll` | src/cli/cli_connection.cpp:348-387 | any cutting into DATA payloads delivers the same bytes |
| `Padding.Tunnel` | src/cli/cli_connection.cpp:1906-1912 | sender and receiver together are the identity for any padding drawn and any cutting |
| `KeepAlive.Serve` | src/cli/cli_connection.cpp:751-864 | a session of plain requests to one host, read in pieces that never cut a header: it is served on one channel if and only if the host can be connected to and, should there be a second request, is canonical; then the server gets each rewritten header followed by exactly its body |
| `KeepAlive.ServeReads` | src/cli/cli_connection.cpp:1819-1898 | what both rest on: plain requests to one host, no header cut, perhaps a closing or chunked one at the end; served on one channel if and only if the host can be connected to and is canonical or nothing lies behind the first request; then exactly the rule's bytes go up |
| `KeepAlive.ServeClosing` | src/cli/cli_connection.cpp:788-810 | the same session with a closing request behind it and whatever follows that: it is served on one channel if and only if the host can be connected to and is canonical, and then the server gets the framed session, the rewritten closing header and all that follows |
| `KeepAlive.ReceiveAll` | src/cli/cli_connection.cpp:1819-1898 | for requests cut anywhere: the channel is dropped exactly at the first request for another host; before that a buffer is put away for good if and only if some read cuts a header; from a cut header or a closing or chunked request on bytes pass unframed; what goes up on the channel is given exactly in every case |
| `KeepAlive.ForHost` | src/cli/cli_connection.cpp:841-859 | requests to one host, a closing one perhaps at the end, on a connection that was resolved to another: the channel stays if and only if there is nothing behind the body under way, and then the same bytes go up |
| `KeepAlive.SessionFramed` | src/cli/cli_connection.cpp:751-864 | the framing rule applied to a session gives header and body, request by request |
| `KeepAlive.FollowOn` | src/cli/cli_connection.cpp:1870-1898 | following a stretch and then the next is following both, unless the first ends inside a header |
| `KeepAlive.PiecesFollowed` | src/cli/cli_connection.cpp:1819-1898 | following the reads one by one is following the whole |
| `KeepAlive.RewriteExact` | src/cli/cli_connection.cpp:770-787 | the in-place rewrite always puts the new header and then the whole payload in front; it gives exactly that if and only if the new header is not longer than the parsed one, and otherwise as many bytes more as it grew |
| `KeepAlive.RewriteInBounds` | src/cli/cli_connection.cpp:780-784 | the move of the payload stays inside the grown buffer if and only if the new header exceeds the parsed one by at most the buffer's offset |
| `KeepAlive.RequestFollowed` | src/cli/cli_connection.cpp:777-801 | a request is its header, its body, and what follows |
| `KeepAlive.KeepAliveConnection.OnReadHttpRequest` | src/cli/cli_connection.cpp:751-825 | its two debug checks (nothing remaining, nothing pending) are preconditions proved at every call; the complete state after a parse, in every case; bytes are stranded exactly for a chunked keep-alive request read together with bytes behind its announced length |
| `KeepAlive.KeepAliveConnection.OnReadHttpRequestAfterReuse` | src/cli/cli_connection.cpp:827-864 | keeps the state invariant; refuses exactly unparsable and CONNECT requests; stays on the channel exactly if the requested host is what the connection was resolved to, which for the host of the last request means exactly if that is canonical; otherwise drops the channel and asks for another, or goes on without a buffer exactly if there can be none; every request, of any kind, is rewritten and split into what goes up and what is set aside |
| `KeepAlive.KeepAliveConnection.AskForChannel` | src/cli/cli_connection.cpp:2034-2050 | refuses exactly an empty host, one of more than 255 bytes and port 0; otherwise host and resolved host agree exactly if the host is canonical |
| `KeepAlive.KeepAliveConnection.SwitchChannel` | src/cli/cli_connection.cpp:841-859 | the channel is given up, the request waits for the next one, and the lookup's answer is what later requests are compared with; without a host that can be connected to the buffer is gone |
| `KeepAlive.KeepAliveConnection.Take` | src/cli/cli_connection.cpp:1863-1898 | keeps the state invariant for every buffer; one step of the framing rule for plain requests; where a request is due, any request to the same host goes up rewritten, closing and chunked ones included, one to another host waits rewritten for the next channel, and a CONNECT or unparsable buffer is put away; raw bytes otherwise |
| `KeepAlive.KeepAliveConnection.TakeHeader` | src/cli/cli_connection.cpp:1870-1882 | the same for a buffer where a request is due, in every case |
| `KeepAlive.KeepAliveConnection.TakeBody` | src/cli/cli_connection.cpp:1883-1897 | body bytes up to the announced length go up, the rest waits; the debug checks there (count not negative, nothing pending) are preconditions proved at the call |
| `KeepAlive.KeepAliveConnection.Incomplete` | src/cli/cli_connection.cpp:1873-1882 | an unparsable buffer under 64 KiB is put away, a larger one stalls the connection |
| `KeepAlive.KeepAliveConnection.GetNext` | src/cli/cli_connection.cpp:1819-1845 | keeps the state invariant: pending implies nothing remaining, keep-alive implies a count that is not negative; the put-away buffer is never picked up; without keep-alive neither buffer is ever touched again |
| `KeepAlive.KeepAliveConnection.Receive` | src/cli/cli_connection.cpp:1819-1898 | one read and its resumptions queue exactly what the framing rule says, and a last request with what was read behind it; a cut header or a last request are the ways to lose keep-alive, a request for another host the one way to lose the channel |
| `KeepAlive.KeepAliveConnection.Open` | src/cli/cli_connection.cpp:751-825 | any first buffer: refused exactly if unparsable or for a host that cannot be connected to, with nothing kept; else the state invariant holds, the rewritten request is split into what waits for the channel and what is set aside, the request is for what the lookup gives, and of a plain request header and body go up and what follows the body is set aside |
| `KeepAlive.KeepAliveConnection.Connect` | src/cli/cli_connection.cpp:2573-2583 | what waited for the channel goes first, in order, and nothing stays behind |
| `KeepAlive.RunAny` | src/cli/cli_connection.cpp:751-864 | every run from any first buffer, over any reads, lookups and channel connects, with chunked, closing, CONNECT, unparsable, refused and cut requests and other destinations: a buffer set aside implies nothing remaining; keep-alive implies a count that is not negative and nothing put away, and that the last host is the one connected to exactly if it is canonical |
| `KeepAlive.SecondHeaderWhole` | src/cli/cli_connection.cpp:1819-1898 | a second request read whole is passed on whole |
| `KeepAlive.SecondHeaderCut` | src/cli/cli_connection.cpp:764-764 | the same request read in two pieces loses its first byte |
| `KeepAlive.SecondRequestReconnects` | src/cli/cli_connection.cpp:841-859 | the failing input for a resolved host: the same request again drops the channel |
| `KeepAlive.ChunkedBodyLost` | src/cli/cli_connection.cpp:788-810 | the failing input for a chunked request: a body byte read together with the header never goes up, the next read does |
| `DataFrame.DataFrameSource.SelectPayloadLength` | src/cli/cli_connection.hpp:80-87 | never more than asked for nor more than the front chunk; finished exactly if the last frame is marked and this one takes the only chunk whole; blocked exactly without chunks |
| `DataFrame.DataFrameSource.Send` | src/cli/cli_connection.cpp:130-165 | sent bytes and remaining chunks are all that was added; no chunk is empty |
| `DataFrame.DataFrameSource.AddChunk` | src/cli/cli_connection.hpp:93-93 | appends to what is to be sent |
| `DataFrame.DataFrameSource.Turn` | src/cli/cli_connection.cpp:130-165 | on any source, empty or not: the front chunk up to the frame size is sent, and the end is announced exactly when this leaves the source empty and the last frame was marked |
| `DataFrame.DataFrameSource.SendAll` | src/cli/cli_connection.hpp:80-104 | any positive frame size sends everything, in order, in frames of at most that size |
| `DataFrame.RunSource` | src/cli/cli_connection.hpp:80-104 | every interleaving of added chunks, marks and draws: at every moment the bytes drawn are a prefix of the bytes added, no frame is larger than asked for, and a draw ends the stream exactly if all that was added so far is drawn and the last frame is marked |
| `IoQueue.IoQueue.PushBack` | src/net/io_queue.hpp:99-108 | the ring holds what it held and the new buffer, enlarged when full |
| `IoQueue.IoQueue.PopFront` | src/net/io_queue.hpp:118-123 | the ring holds all but its front |
| `IoQueue.IoQueue.Front` | src/net/io_queue.hpp:112-116 | the first buffer |
| `IoQueue.IoQueue.Back` | src/net/io_queue.hpp:125-129 | the last buffer |
| `IoQueue.IoQueue.Length` | src/net/io_queue.hpp:131-134 | the number of buffers |
| `IoQueue.IoQueue.ByteLength` | src/net/io_queue.hpp:136-145 | the bytes of all buffers |
| `IoQueue.IoQueue.Enlarge` | src/net/io_queue.hpp:163-183 | enlarging a full ring keeps contents and order |
| `IoQueue.PushHeld` | src/net/io_queue.hpp:99-108 | wrap-around on push, for every index |
| `IoQueue.PopHeld` | src/net/io_queue.hpp:118-123 | wrap-around on pop, for every index |
| `HandOff.EventsHandledInOrder` | src/gtk/yass.cpp:340-353 | every interleaving: the queue is never popped when empty; events are handled once each in push order; pops <= bytes read <= bytes written <= pushes; no callback posts twice |
| `HandOff.UnhandledIsAnnounced` | src/gtk/utils_gtk.cpp:119-172 | every event not handled has a byte on its way, or its write failed |
| `HandOff.EventsTellTheTruth` | src/cli/cli_worker.cpp:253-280 | every interleaving: stop callbacks report stops and start callbacks starts; a start is reported as failed or as done only if resolving the server ended that way |
| `HandOff.ClearedNeverInvoked` | src/cli/cli_worker.cpp:121-142 | a callback held when the destructor clears the fields is never invoked in any continuation |
| `HandOff.RunKeeps` | src/cli/cli_worker.cpp:253-280 | both invariants hold in every reachable state |
| `HandOff.CountedStep` | src/gtk/yass.cpp:281-320 | each step keeps the counting invariant |
| `HandOff.OnceStep` | src/cli/cli_worker.cpp:194-202 | each step keeps every callback in one place |
| `Rate.NgxAtosz` | src/config/config_core.cpp:76-99 | the number written, if it is all digits, not empty and at most INT64_MAX, else -1; nothing overflows on the way |
| `Rate.NgxParseSize` | src/config/config_core.cpp:101-139 | digits times scale if that fits INT64_MAX, else -1 |
| `Rate.UnitsMean` | src/config/config_core.cpp:101-139 | k and K scale by 1024, m and M by 1024*1024, digits alone by 1, any other last character is an error |
| `Rate.ParseFlag` | src/config/config_core.cpp:141-153 | empty is 0, else the exact value or an error |
| `Rate.PrintParse` | src/config/config_export.hpp:51-58 | printing and parsing gives the rate back if and only if it is at most INT64_MAX |
| `Rate.PrintInjective` | src/config/config_export.hpp:51-58 | no two rates print alike, also above INT64_MAX |
| `Rate.ParsePrintParse` | src/config/config_core.cpp:141-159 | parse, print, parse is parse, for every text the option accepts, the empty one included |
| `Rate.DecimalNumber` | src/config/config_export.hpp:53-57 | the decimal form of a number writes that number |
| `ByteCount.Scale` | src/core/utils.cpp:312-326 | the unit index stays inside "KMGTPE" and is the least for which the count is at most 1023.95 of the unit; the scaled value is in 1023..1048524 and is the count divided by the unit, rounded down |
| `Deps.ResolveDeps` | scripts/install-sysroot-freebsd.py:100-105 | ends; gives the least set with the roots closed under dependencies, or a missing key if and only if that set leaves the table |
| `Deps.Round` | scripts/install-sysroot-freebsd.py:91-98 | one round adds exactly the direct dependencies; a missing key exactly when a package is not in the table |

## Left out

- HTTP/2 upstreams in the relay: the adapter is a foreign library; its data source and the padding code are modelled on their own, the waits of a connection with an adapter are not.
- Keep-alive inside the relay: `Relay` has no HTTP re-framing; `KeepAlive` has it with a channel that is there or not, and does not model the waits.
- Keep-alive requests to another destination: the framing theorems say exactly when the switch happens and stop at it, because bytes read while the new channel connects bypass the counter.
- Lookups that fail end the connection, and the time a lookup takes: the model has the answer at once, which nobody looks at before the channel is there.
- The limit on bytes kept while a channel connects: it is in `Relay` (`KeepEarlyData`), not in `KeepAlive`.
- The client-side handshake (SOCKS4, SOCKS5, HTTP, redirect): the relay model starts when it is done and its reply is written.
- Waits that end with `bad_descriptor` or `operation_aborted`: they return with no wait armed (src/cli/cli_connection.cpp:907-909, 1067-1069), and they are not among the events of `Run`.
- The order of a SOCKS reply's own bytes and relayed ones: the reply is written outside the queue; `ReplyWritten` models its completion only.
- Rate limiting and connection timeouts of the channel: timers only.
- "Interrupted" results of socket calls: they are never reported.
- Buffers as objects: a queue is a sequence of byte strings; that `EncryptData` writes into a buffer that is also being drained is modelled as an update of the last element. Encoder and decoder are values that the connection replaces.
- After the channel is lost with bytes still queued for it, the code may stop reading the client; `Idle` says nothing about the client-readable wait in that state.
- Relay.CliConnection.GivenUpForAReason: that a failed call on the client's side closes the connection, and does not only give up the channel, is stated where the calls are made (`WriteStream`, `ReadClient`, `SendFront`), not over runs.
- HandOff threads are steps on values, not a class: the steps of two threads interleave.
- 64-bit wrap-around of packet and byte counters, and 32-bit queue indices.
- KeepAlive.KeepAliveConnection.Incomplete: an unparsable buffer of 64 KiB or more makes the source return an error that nobody handles; the model reports it and stops there.
- TLS, DNS, asio, the HTTP parser internals and the ciphers themselves: foreign libraries or thin wrappers.
- Path splitting, list flags, configuration storage, widgets and build scripts: they would only add easy members.
