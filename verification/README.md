# A model of the ppaass tunnel

ppaass tunnels client traffic through two programs. The *agent* accepts SOCKS5 and HTTP clients, wraps
their bytes in framed, compressed and encrypted messages and sends them to the *proxy*, which unwraps them
and talks to the destination. This project models the parts where the two programs have to agree, and
proves what they keep: the frame codec, the tunnel session and its relays, the SOCKS5 wire formats and
handshake, the AES buffer, the UDP exchange and the proxy's count of live transports.

`dafny verify dfyconfig.toml` checks everything.

## How it is built

| module | part of the system |
|---|---|
| `Octets`, `Utf8`, `Unicode` | fixed-width integers, the growable byte buffer, UTF-8 strings and the lossy conversion, with Unicode scalar values as the reference |
| `Messages` | the message types and their serialized form (bincode 1.3 defaults) |
| `Aes` | `encrypt_with_aes`, `decrypt_with_aes` and PKCS#7 padding |
| `Codec` | one connection codec: `decode` and `encode` as methods that change a status and a buffer |
| `Refusals` | which bodies, calls and messages the codec accepts, and with which error it refuses the others |
| `WireFormat`, `SocksFormat` | the bytes themselves: digits, tags, codes and layouts in literal terms |
| `Stream` | the codec on a byte stream cut into reads, against a stateless one-shot parse |
| `Relay`, `Flow` | a relay that unwraps Data messages; the state and steps of one direction of a tunnel |
| `Session`, `TunnelSafety`, `TunnelLogs`, `TunnelOpening`, `TunnelMarking` | the two programs as one step system, and what holds in all its runs |
| `Server` | the transport counter under every interleaving of transports and of the two tasks of each |
| `Socks5`, `Handshake` | SOCKS5 parsers and printers, and the three decoders that share a client stream |
| `Transfer` | a connection that carries one message, from `encode` to the peer's `decode` |
| `Udp`, `UdpRelay` | the proxy's receive loop over a script of socket outcomes; the agent's datagram relay, with both messages of every exchange going through the codecs |
| `Uncompressed`, `Example` | a concrete message whose uncompressed frame does not decode, and a concrete tunnel that meets all hypotheses |

What the code updates in place is a class with methods (`ConnectionCodec`, `BytesMut`, `TransportNumber`, `RelayTask`),
each method proved against a function of the old state (`DecodeCall`, `Frame`, `ParseAddress`, ...). The
lemmas are about those functions, so they hold of the methods too. Distributed behaviour is a step
function `Apply` and all its runs: a step is one send, one read, one decode, one partial flush or delivery
of any number of bytes, or a failure, and steps of the two programs and of their tasks interleave freely.

The agent's codec and the proxy's codec are the same code with the two payload types exchanged. They are one
class here, with the direction it decodes as a field; every theorem about a link holds for both pairings.

## Hypotheses

Libraries whose inside is not modelled appear as values with these laws, named where they are needed:

- `LibraryLaws`: decompression undoes compression, and the AES block function and its inverse undo each
  other on 16-byte blocks under 32-byte keys.
- `KeyPair`: the receiver of a user's messages can unwrap every token the sender can wrap. Wrapping takes its
  randomness as an argument and may fail.
- `GzipMagic`: a gzip member starts with 1F 8B (section 2.3.1 of RFC 1952). Only the "exactly when"
  theorems about uncompressed bodies use it, with message ids of 36 characters (text form UUIDs, as
  `common/src/message/generator.rs` makes them).
- `Representable`: lengths that are written as 64 bits fit 64 bits.

Everything else about bytes is concrete, and no theorem bounds the number of messages, reads, transports or
steps. `Example` gives libraries, keys and a tunnel that meet all of these laws at once.

## What the code does that one might not expect

- `UN_COMPRESS_FLAG` has the value of `COMPRESS_FLAG`. A codec that does not compress therefore marks
  its frames as compressed, and its peer fails to decompress them. Compression is off unless configured
  (`agent/src/config.rs:63`, `proxy/src/config.rs:56`). The flag is a parameter of the model: a frame, a
  stream, a whole tunnel and a UDP exchange work if and only if the encoders compress or the two flags differ
  (`Codec.FrameRoundTripExactly`, `Stream.StreamingRoundTripExactly`, `TunnelMarking.TunnelOpensExactly`,
  `UdpRelay.AnswersExactly`).
- A decoded message holds the wrapped token, not the one it was encrypted with (`Codec.ReceivedToken`).
- An `encode` that fails has already written 11 bytes. They are fewer than a header, so they never decode
  (`Relay.TornStream`, `TunnelSafety.SettledIsComplete`).
- A decoder that fails in a body stays in its `Data` status; it is back at `Head` only for a wrong flag or
  a payload that does not deserialize (`Codec.FailureStatus`).
- A transport that ends before dispatch is never subtracted from the counter, so the counter returns to zero
  if and only if no transport did (`Server.CounterAtRest`).
- The SOCKS5 negotiation decoder panics when a method byte is missing, the request decoder fails on a
  partial address instead of waiting, and both drop what is buffered behind their message. The handshake
  loses nothing if and only if the client kept lockstep (`Handshake.LosesNothingExactly`).
- The address parser replaces ill-formed UTF-8 and turns the domain "0" into "127.0.0.1"; the printer keeps
  only the low byte of a domain's length. The exact conditions for both round trips are
  `Socks5.AddressRoundTripExactly` and `Socks5.PrintParsedExactly`.
- The method codes 3, 8 and 16 are the code's; section 3 of RFC 1928 has ranges there and FF for "no
  acceptable methods".

## Model

| member | source | states |
|---|---|---|
| `Messages.PayloadRoundTrip` | common/src/message/mod.rs:28-52 | every agent and proxy payload, followed by any bytes, deserializes to itself (V6 flow and scope become 0) and leaves exactly those bytes |
| `Messages.PayloadLossless` | common/src/message/address.rs:9-15 | a payload survives serialization unchanged if and only if every V6 address in it has flow information 0 and scope 0 |
| `Messages.PayloadUnique` | common/src/lib.rs:128-144 | only the serialization of a payload of the right direction deserializes to it: nothing else is accepted |
| `Messages.AgentTcpRoundTrip` | common/src/message/payload/tcp.rs:6-17 | agent TCP Init and Data payloads read back with any bytes behind them |
| `Messages.ProxyTcpRoundTrip` | common/src/message/payload/tcp.rs:31-43 | proxy TCP Init (with its result) and Data payloads read back with any bytes behind them |
| `Messages.ResultRoundTrip` | common/src/message/payload/tcp.rs:19-29 | init results and failure reasons read back with any bytes behind them |
| `Messages.AgentUdpRoundTrip` | common/src/message/payload/udp.rs:6-14 | agent UDP payloads read back with any bytes behind them |
| `Messages.ProxyUdpRoundTrip` | common/src/message/payload/udp.rs:16-23 | proxy UDP payloads read back with any bytes behind them |
| `Messages.EncryptionRoundTrip` | common/src/message/encryption.rs:4-8 | the encryption field reads back with any bytes behind it |
| `Messages.CodecMessageRoundTrip` | common/src/message/mod.rs:18-26 | the outer message reads back unchanged with any bytes behind it |
| `Messages.CodecMessageUnique` | common/src/lib.rs:38-54 | only the serialization of an outer message deserializes to it |
| `Aes.DecryptedEncrypted` | common/src/crypto/aes.rs:19-32 | for every plaintext length, decrypting the returned ciphertext gives the plaintext back; the ciphertext has the padded length |
| `Aes.EncryptedDecrypted` | common/src/crypto/aes.rs:28-32 | whatever decrypts to a plaintext is that plaintext's encryption |
| `WireFormat.AddressBytes` | common/src/message/address.rs:9-15 | the bytes of every address: tags 0 and 1 in declaration order, four or sixteen address bytes or a sized text, and the port with its low byte first |
| `WireFormat.PayloadBytes` | common/src/message/payload/tcp.rs:6-43 | the bytes of every kind of payload: literal tags in declaration order and fields in declaration order |
| `WireFormat.MessageBytes` | common/src/message/mod.rs:18-26 | the outer message is id, user, encryption and payload, each with its literal tag or its size |
| `WireFormat.SizedBytes` | common/src/lib.rs:46-54 | texts and byte strings are an 8-byte little-endian length and their bytes |
| `WireFormat.BigDigits` | common/src/codec/agent.rs:198 | in a big-endian number the last byte is the least significant |
| `WireFormat.LittleDigits` | common/src/lib.rs:50 | in a little-endian number the first byte is the least significant |
| `Aes.EcbBlock` | common/src/crypto/aes.rs:10-11 | block i of the result is the block function applied to block i of the input: every block keeps its place |
| `Aes.EcbUndone` | common/src/crypto/aes.rs:10-11 | block-wise transformation by an invertible block function keeps the length and is undone block-wise |
| `Aes.EncryptedBlock` | common/src/crypto/aes.rs:24 | block i of the ciphertext is the block function applied to block i of the padded plaintext |
| `Aes.PadIsPkcs7` | common/src/crypto/aes.rs:8 | padding adds 1 to 16 bytes up to a whole 16-byte block, each equal to their number |
| `Aes.UnpadUndoesPad` | common/src/crypto/aes.rs:8 | PKCS#7 padding is removed again from every byte string |
| `Aes.PadUndoesUnpad` | common/src/crypto/aes.rs:8 | whole blocks with accepted padding are the padding of what is left |
| `Aes.BufferBound` | common/src/crypto/aes.rs:21-22 | growing to the next 32-byte unit leaves room for the padded length and exactly 16 or 0 bytes more, 16 when the length modulo 32 is below 16 |
| `Aes.EncryptWithAes` | common/src/crypto/aes.rs:19-26 | encryption under a 32-byte key never lacks room; each block of the returned ciphertext is the enciphered block of the padded plaintext in the same place, and `target` is the ciphertext followed by the slack, equal to it exactly when the length modulo 32 is 16 or more |
| `Aes.EncryptPadded` | common/src/crypto/aes.rs:24 | in-place padding encryption fails exactly when the buffer is shorter than the padded length, changing nothing, and otherwise leaves the bytes behind the ciphertext alone |
| `Aes.DecryptWithAes` | common/src/crypto/aes.rs:28-32 | decryption returns the unpadded plaintext or the padding error, and states what it leaves in `target` in both cases |
| `Codec.ConnectionCodec.Decode` | common/src/codec/agent.rs:55-136 | one call of the decoder: outcome, new status and remaining buffer as the specification of a call says, in every status and for every buffer |
| `Codec.ConnectionCodec.Open` | common/src/codec/proxy.rs:91-138 | opening a body: on success and on a payload error the status is `Head` again, on every other error it is unchanged |
| `Codec.ConnectionCodec.Encode` | common/src/codec/proxy.rs:149-205 | a successful encode appends exactly one frame, a failing one exactly the 11-byte stub; earlier bytes are untouched |
| `Codec.ConnectionCodec.SealMessage` | common/src/codec/agent.rs:161-187 | key lookup, token wrapping and payload encryption produce the sealed message, or the error of the first step that fails |
| `Codec.DecodeCallShape` | common/src/codec/agent.rs:56-90 | "nothing" leaves a decoder that waits and at most a header consumed; "some" leaves it at `Head` with exactly one whole frame gone, and buffer length plus one for `Data` strictly falls |
| `Codec.FailureStatus` | common/src/codec/agent.rs:88-134 | after a failed call the status is `Head` if and only if the flag was wrong or the payload did not deserialize |
| `Refusals.FailureTakes` | common/src/codec/agent.rs:63-90 | the flag error occurs exactly for 19 bytes that do not begin with the flag, and takes 10 of them; every other failure takes exactly the frame and leaves `Head` or the status its header gave |
| `Refusals.DecodedHasKeys` | common/src/codec/agent.rs:116-120 | in every status and for every buffer, no call returns a message of a user without keys |
| `Refusals.KeylessRefused` | common/src/codec/proxy.rs:116-120 | under both encryptions, a readable body is refused with the fetch error, or as not found for that user, when its user's keys can not be fetched or do not exist |
| `Refusals.UnreadableExactly` | common/src/codec/agent.rs:91-107 | a body fails to decompress, or to deserialize, exactly when the library refuses it, or its bytes read as no message |
| `Refusals.PlainOpens` | common/src/codec/proxy.rs:122-137 | a readable Plain body of a user with keys delivers the payload it carries, or fails as a bad payload |
| `Refusals.AesOpens` | common/src/codec/agent.rs:122-134 | a readable `Aes` body fails when its token does not unwrap, has not 32 bytes, or its payload is no ciphertext under it, and otherwise delivers the plaintext it is the ciphertext of |
| `Refusals.FrameExactly` | common/src/codec/agent.rs:161-185 | a message is encoded if and only if its user has keys and, for `Aes`, its token can be wrapped and has 32 bytes; otherwise which error |
| `Refusals.SealIsSealed` | common/src/codec/agent.rs:167-187 | the sealed message keeps id and user, carries the token wrapped for that user and the payload enciphered block by block under it, or the plain payload |
| `WireFormat.FlagIsText` | common/src/codec/agent.rs:20 | the ten flag bytes are the ASCII text `__PPAASS__` |
| `WireFormat.FrameBytes` | common/src/codec/agent.rs:148-199 | an encoded message is the flag, 1 or the flag for uncompressed bodies, the big-endian body length and the body, which is the sealed message, compressed once if the encoder compresses |
| `WireFormat.MarkDecides` | common/src/codec/agent.rs:67-107 | compression byte 1 means a compressed body and every other value an uncompressed one; bytes behind the message in the body and behind the payload in the message are ignored |
| `Codec.UnsealSeal` | common/src/codec/agent.rs:122-131 | for Plain and Aes, unsealing a sealed message with the matching key pair recovers the serialized payload |
| `Codec.OpenSealed` | common/src/codec/agent.rs:91-134 | the body of a sealed message opens to its id, user, payload and wrapped token, when it is opened the way it was packed |
| `Codec.FrameParts` | common/src/codec/agent.rs:197-199 | a frame is 19 bytes longer than its body, and flag, compression byte, length and body can be read back from it whatever follows |
| `Codec.FrameCall` | common/src/codec/agent.rs:57-90 | a decoder at the start of a frame consumes exactly that frame and leaves every later byte, whether or not the body opens |
| `Codec.FrameRoundTrip` | common/src/codec/proxy.rs:149-205 | decoding an encoded message returns id, user, payload and wrapped token, consumes exactly the frame and ends in `Head` |
| `Codec.ReceivedToken` | common/src/codec/agent.rs:122-134 | the received token is the wrapped one and unwraps to the token that was sent |
| `Codec.FrameRoundTripExactly` | common/src/codec/agent.rs:22-23 | the frame round trip holds if and only if the body is compressed or the two flags differ; otherwise the decoder reports a decompression error |
| `Uncompressed.RawFrameFails` | common/src/codec/proxy.rs:152-156 | a concrete message whose uncompressed frame is encoded without an error and does not decode |
| `Stream.CallAgrees` | common/src/codec/agent.rs:55-136 | one stateful call takes exactly one item, or the final outcome, off the stateless parse |
| `Stream.CallAppend` | common/src/codec/agent.rs:58-83 | bytes behind a whole frame do not change a call; bytes behind a partial one continue it |
| `Stream.ResumeAppend` | common/src/codec/agent.rs:55-136 | parsing a longer byte string continues from the status and leftover where the parse of its front stopped, and repeats its error |
| `Stream.WaitingIsSettled` | common/src/codec/agent.rs:58-83 | a parse that ends without an error leaves `Head` with fewer than 19 bytes or `Data` with fewer than it announced, and nothing more to find |
| `Stream.ReadChunk` | common/src/codec/agent.rs:55-136 | draining the decoder after one read terminates and yields what the parse of buffer and read yields, with its final status and leftover |
| `Stream.ReadAll` | common/src/codec/agent.rs:55-136 | driving the stateful decoder over all reads yields the items, first error, final status and leftover of a one-shot parse of the whole stream |
| `Stream.ChunkIndependence` | common/src/codec/agent.rs:55-136 | for any bytes, valid or not, and any cut into reads, the incremental decoder agrees with the one-shot parse |
| `Stream.StreamingRoundTrip` | common/src/codec/proxy.rs:149-205 | any sequence of encoded messages, cut in any way, arrives in order, each once, leaving `Head` and an empty buffer |
| `Stream.StreamingRoundTripExactly` | common/src/codec/proxy.rs:22-23 | the streaming round trip holds if and only if bodies are compressed or the flags differ; otherwise no message of the stream arrives |
| `Stream.PartialFrame` | common/src/codec/agent.rs:58-83 | a frame of which any part is missing yields no message, however it is marked |
| `Transfer.ArrivesExactly` | common/src/codec/agent.rs:55-136 | a message on a connection of its own arrives if and only if it can be encoded, its whole frame is read, in any pieces, and the frame is marked the way it is packed; it arrives as sent, with its token wrapped |
| `Transfer.Carry` | common/src/codec/proxy.rs:149-205 | encoding with one codec object and decoding with the other, over any pieces, yields that arrival |
| `Stream.PartialStream` | common/src/codec/agent.rs:58-83 | while part of the stream is missing, what has come out is a prefix of what was sent, and there is no error |
| `Stream.PrefixParse` | common/src/codec/agent.rs:55-136 | parsing a prefix of any byte string finds a prefix of its messages, and fails only if the whole does |
| `Stream.WriteAll` | common/src/codec/proxy.rs:149-205 | encoding messages until one fails writes the frames of those before it and then one stub |
| `Relay.ForwardIncoming` | proxy/src/transport/tcp.rs:130-143 | from any decoder status and buffer, and over any later bytes cut in any way, a relay writes exactly the contents of the Data messages before the first error or other message |
| `Relay.Drain` | agent/src/transport/mod.rs:208-222 | frames already buffered are written out before anything is read, and what remains to be delivered is unchanged |
| `Relay.StopSafety` | agent/src/transport/mod.rs:208-225 | Data messages followed by anything that does not start with another Data message deliver exactly the contents sent before that point |
| `Relay.TornStream` | common/src/codec/proxy.rs:151-168 | the 11 bytes of a failed encode behind whole frames never decode and are all that is left in the decoder |
| `Flow.TransmitIsFaithful` | common/src/codec/proxy.rs:149-205 | encoding one more message, or failing to, keeps the unread bytes equal to the frames not yet decoded, plus at most one stub |
| `Flow.ReceiveIsFaithful` | common/src/codec/agent.rs:55-136 | a decoder call keeps that equality: what it returns is the oldest message not yet returned |
| `Flow.ForwardIsGood` | agent/src/transport/mod.rs:190-197 | forwarding a chunk keeps order and conservation, whether or not the encode succeeds |
| `Flow.DecodeFinds` | common/src/codec/agent.rs:55-136 | on a faithful direction a call never fails, and returns the next message that was encoded |
| `Flow.DecodeReady` | common/src/codec/agent.rs:76-90 | when every encoded byte has reached the decoder, a call does return the next message |
| `Flow.DecodedKind` | proxy/src/transport/tcp.rs:72-83 | the first message a direction delivers is its Init, every later one Data, all for the tunnel's user |
| `Flow.FlowConservation` | agent/src/transport/mod.rs:178-229 | written, in-flight and unsent bytes are, in this order, the bytes read |
| `Flow.FlowDrained` | proxy/src/transport/tcp.rs:130-152 | with empty buffers and a waiting decoder, everything encoded was written, and at most a stub is left |
| `Session.SendInitInv` | agent/src/transport/socks/mod.rs:226-241 | sending the request keeps the session invariant, also when encoding it fails |
| `Session.AgentAwaitsInv` | agent/src/transport/socks/mod.rs:243-270 | taking the reply keeps the invariant: only a successful Init lets the agent go on |
| `Session.StartRelayInv` | agent/src/transport/mod.rs:178-183 | sending the initial data, if there is any, keeps the invariant |
| `Session.AgentRelaysInv` | agent/src/transport/mod.rs:188-205 | every step of the agent's sending task, and stopping either task, keeps the invariant |
| `Session.ProxyDecodesInv` | proxy/src/transport/mod.rs:59-92 | the proxy's first read, and every read of its relay, keeps the invariant |
| `Session.SendReplyInv` | proxy/src/transport/tcp.rs:95-121 | both the success and the failure reply keep the invariant |
| `Session.ProxyRelaysInv` | proxy/src/transport/tcp.rs:146-165 | every step of the proxy's sending task, and stopping either task, keeps the invariant |
| `Session.RunInv` | proxy/src/transport/tcp.rs:85-167 | every reachable state of a tunnel between conforming ends satisfies the session invariant, for any interleaving of the 23 kinds of step |
| `TunnelSafety.Conservation` | agent/src/transport/mod.rs:178-229 | in every reachable state and both directions: written, in-flight and unsent bytes are exactly initial data plus bytes read; what the far end has is a prefix |
| `TunnelSafety.SettledIsComplete` | proxy/src/transport/tcp.rs:130-152 | a drained direction has written everything but a chunk that was never encoded; its decoder holds nothing, or the stub of a failed encode |
| `TunnelSafety.SessionOrder` | proxy/src/transport/mod.rs:74-80 | each direction carries one Init first and only Data after it, all for one user; the agent sends Data only after a successful reply, the proxy only after replying with success |
| `TunnelSafety.ExitsUnreachable` | agent/src/transport/mod.rs:209-218 | in no reachable state does a decode fail or return a message of the wrong kind for its reader, and the proxy is asked for the addresses the agent was |
| `TunnelSafety.TasksAreIndependent` | agent/src/transport/mod.rs:188-229 | once relaying, a side keeps relaying, and only a task's own steps end it: neither stops the other task or the peer's |
| `TunnelSafety.TasksCanEnd` | proxy/src/transport/tcp.rs:130-165 | in every state each running task can end, leaving the other as it is |
| `TunnelLogs.NothingInTheClear` | proxy/src/transport/tcp.rs:114-152 | in every run between any ends, each message either side has encoded is enciphered block by block under its sender's token, wrapped for the user: the request, the agent's data and everything from the proxy each under its own |
| `TunnelLogs.LogsSay` | proxy/src/transport/mod.rs:74-92 | in every run the agent sends the request with the client's addresses and then only TCP Data, the proxy one reply with the same addresses, a success or that it can not connect, and TCP Data only behind a success |
| `TunnelLogs.AnswersConnect` | proxy/src/transport/tcp.rs:95-121 | a connected destination is answered with success and the transport's id, a failed one with that reason |
| `TunnelLogs.ContentOfExactly` | proxy/src/transport/tcp.rs:72-83 | a relay unwraps a message if and only if it is TCP Data of its direction, and then its content |
| `TunnelLogs.FlushedInRuns` | agent/src/transport/socks/mod.rs:238-243 | in every run the agent waits for the reply, and the proxy starts to relay, only once what it sent is flushed, and a connection is closed only flushed |
| `TunnelSafety.ReceiveAll` | agent/src/transport/mod.rs:208-222 | a running reader whose wire is empty can always drain its buffer |
| `TunnelSafety.DrainIsPossible` | proxy/src/transport/tcp.rs:130-138 | from every reachable state with an open writer and a running reader, some continuation delivers everything encoded: no byte is lost or stuck |
| `TunnelOpening.RequestArrives` | agent/src/transport/socks/mod.rs:226-241 | some run brings the request to the proxy, which then connects to the requested destination for that user |
| `TunnelOpening.ReplyArrives` | proxy/src/transport/tcp.rs:113-121 | from there some run brings the success reply to the agent while the proxy starts to relay |
| `TunnelOpening.TunnelOpens` | agent/src/transport/http/mod.rs:89-144 | every tunnel whose handshake messages can be encoded can be opened, with the initial data as the only tunnelled bytes sent |
| `TunnelMarking.NeverRelays` | common/src/codec/agent.rs:22-23 | when an end marks uncompressed frames as compressed, no run takes the agent past waiting for the reply, and the relay reads nothing from the client and writes nothing to it |
| `TunnelMarking.TunnelOpensExactly` | common/src/codec/proxy.rs:22-23 | between ends with matching keys a tunnel can be opened if and only if each end compresses or uses a flag of its own for uncompressed bodies |
| `Example.SampleOpensExactly` | common/src/codec/agent.rs:149-153 | with the flag values of the code, a concrete tunnel can be opened if and only if both ends compress |
| `Example.SampleConforms` | proxy/src/transport/tcp.rs:85-167 | the hypotheses of the theorems about whole runs are met by a concrete tunnel |
| `Server.CounterConservation` | proxy/src/server.rs:55-58 | under any interleaving of any number of transports and of their tasks the counter is the number of those added and subtracted by neither task, and there is one whenever a subtraction is due |
| `Server.StepCounts` | proxy/src/transport/mod.rs:93-100 | every step of any task keeps the counter equal to that number modulo 64 bits, and keeps that at most one task of each transport subtracts |
| `Server.CounterAtRest` | proxy/src/transport/mod.rs:59-80 | the counter is live transports plus those that left before dispatch; with no live one it is zero if and only if none left so |
| `Server.EarlyCloseIsNeverSubtracted` | proxy/src/transport/mod.rs:61-64 | a peer that closes at once leaves the counter at 1, and only a new connection can change the state afterwards |
| `Server.ReleasedOnce` | proxy/src/transport/tcp.rs:146-166 | in every run the main task and the relay task of a transport together subtract at most as often as it was added, at most once; it is counted exactly while added and not subtracted by either |
| `Server.TcpHandler` | proxy/src/transport/tcp.rs:85-167 | the handler leaves the counter alone and spawns a relay task on it if and only if it succeeds |
| `Server.Exec` | proxy/src/transport/mod.rs:55-138 | the main task changes the counter as its steps do at each of its exits, and leaves a relay task exactly when the steps say so |
| `Server.RelayTask.Finish` | proxy/src/transport/tcp.rs:158 | the relay task's subtraction is the step that ends it |
| `Server.Serve` | proxy/src/server.rs:55-64 | over its whole life, both tasks together, a transport leaves the counter as it found it, or one higher exactly when the peer closed, its first message was undecodable, or a first TCP message was no Init |
| `Server.EventsRun` | proxy/src/transport/tcp.rs:95-166 | where the steps of the main task lead for every script: left early, returned with a relay task running exactly after a success, or subtracted, and subtracting exactly in the last case |
| `Unicode.WellFormedExactly` | agent/src/transport/socks/message/mod.rs:87 | a byte string is taken as text if and only if it is the UTF-8 encoding of some Unicode scalar values |
| `Unicode.LossyText` | agent/src/transport/socks/message/mod.rs:87 | the lossy conversion keeps every character |
| `Unicode.LossyReplaces` | agent/src/transport/socks/message/mod.rs:87 | where no character begins it writes U+FFFD for the longest beginning of one, or for one byte, and goes on behind it |
| `Utf8.LossyIsValid` | agent/src/transport/socks/message/mod.rs:87 | the lossy conversion always gives well-formed UTF-8 |
| `Utf8.LossyIdentity` | agent/src/transport/socks/message/mod.rs:87 | the lossy conversion leaves a byte string alone if and only if it is well-formed |
| `Socks5.Parse` | agent/src/transport/socks/message/mod.rs:30-99 | the parser consuming its buffer step by step agrees with the specification on result and rest, also on failure |
| `Socks5.Print` | agent/src/transport/socks/message/mod.rs:137-161 | the printer produces the layout of the specification, for which the round trips below are proved |
| `Socks5.ParseIsTotal` | agent/src/transport/socks/message/mod.rs:30-99 | for every byte string: which error, exactly when; success exactly when the whole address is there, taking its 7, 19 or 4 + n bytes |
| `Socks5.ParseExtends` | agent/src/transport/socks/message/mod.rs:30-99 | bytes behind an address change nothing and are left |
| `Socks5.ParsePrefixFree` | agent/src/transport/socks/message/mod.rs:30-99 | every proper prefix of an address fails as exhausted |
| `SocksFormat.V4Bytes` | agent/src/transport/socks/message/mod.rs:36-47 | 1, four bytes, hi, lo is the V4 address with port 256 * hi + lo, parsed and printed |
| `SocksFormat.V6Bytes` | agent/src/transport/socks/message/mod.rs:48-70 | 4, sixteen bytes, hi, lo is the V6 address with that port, parsed and printed |
| `SocksFormat.DomainBytes` | agent/src/transport/socks/message/mod.rs:71-93 | 3, n, n bytes, hi, lo is the domain with that port |
| `SocksFormat.HostBytes` | agent/src/transport/socks/message/mod.rs:153-158 | a domain is printed with the low byte of its length, however long it is |
| `SocksFormat.HostNameExactly` | agent/src/transport/socks/message/mod.rs:87-90 | "0" reads as "127.0.0.1", every other well-formed text as itself, and ill-formed bytes as their lossy conversion |
| `SocksFormat.DatagramBytes` | agent/src/transport/socks/message/udp.rs:15-47 | two reserved bytes, the fragment, the address and the data, parsed and printed |
| `SocksFormat.DatagramRefused` | agent/src/transport/socks/message/udp.rs:18-34 | a datagram is refused exactly below 3 bytes or when its address is |
| `SocksFormat.NegotiationTable` | agent/src/transport/socks/message/auth.rs:13-25 | every buffer of the negotiation by literal length, version and method codes, with the outcome of each |
| `SocksFormat.RequestTable` | agent/src/transport/socks/message/init.rs:14-25 | every buffer of the request stage by literal length, version and command: 1 is Connect, 2 Bind, 3 UdpAssociate, and any other code an error with that code |
| `Socks5.ZeroIsHere` | agent/src/transport/socks/message/mod.rs:87-90 | the domain "0" reads as "127.0.0.1" |
| `Socks5.AddressRoundTripExactly` | agent/src/transport/socks/message/mod.rs:137-161 | a printed address with any tail parses back to itself and that tail if and only if it is V4, V6 without flow and scope, or a domain of at most 255 bytes other than "0" |
| `Socks5.PrintParsedExactly` | agent/src/transport/socks/message/mod.rs:86-92 | printing what was parsed gives the bytes back if and only if the domain on the wire is well-formed UTF-8 and not "0" |
| `Socks5.ReadDatagram` | agent/src/transport/socks/message/udp.rs:18-34 | the datagram parser on its buffer agrees with the specification, with its error cases |
| `Socks5.WriteDatagram` | agent/src/transport/socks/message/udp.rs:37-46 | the datagram printer produces the layout for which the round trips are proved |
| `Socks5.DatagramRoundTripExactly` | agent/src/transport/socks/message/udp.rs:15-47 | a printed datagram parses back to itself if and only if its address can be printed without loss |
| `Socks5.DatagramRewrittenExactly` | agent/src/transport/socks/message/udp.rs:15-47 | printing a parsed datagram gives its bytes with the two reserved ones zeroed if and only if its domain is kept verbatim |
| `Socks5.DecodeAuth` | agent/src/transport/socks/codec.rs:22-37 | the negotiation decoder waits below 2 bytes changing nothing, and otherwise takes exactly 2 + n bytes, reports a version, or panics on a missing method |
| `Socks5.DecodeInit` | agent/src/transport/socks/codec.rs:57-70 | the request decoder waits below 4 bytes changing nothing, and otherwise takes exactly the request or reports which part is wrong |
| `Handshake.Dispatch` | agent/src/transport/dispatcher.rs:35-115 | peeking the first byte tells SOCKS5, SOCKS4 and HTTP apart, and handing the buffer over gives the handshake of the whole client stream |
| `Handshake.Greet` | agent/src/transport/socks/mod.rs:75-89 | the negotiation loop over reads of any size, started with the dispatcher's buffer, stops at the read that completes 2 bytes and drops what it has not used |
| `Handshake.Ask` | agent/src/transport/socks/mod.rs:91-106 | the request loop starts with an empty buffer, stops at the read that completes 4 bytes and drops what it has not used |
| `Handshake.LosesNothingExactly` | agent/src/transport/socks/mod.rs:75-106 | for every negotiation and every request the decoder accepts, and any cut of the client stream, the handshake succeeds without dropping a byte if and only if the client kept lockstep; then command and address are recovered and exactly the later bytes are left |
| `Handshake.PrintedRequestArrives` | agent/src/transport/socks/codec.rs:57-70 | a lockstep client that prints command 1, 2 or 3 and an address without loss gets exactly that address to the relay, under Connect, Bind or UdpAssociate |
| `Handshake.FirstByteDecides` | agent/src/transport/dispatcher.rs:40-45 | for every stream and cut, first byte 5 leads to the negotiation, 4 is refused, and every other one is HTTP |
| `Handshake.CutIsLeast` | agent/src/transport/socks/codec.rs:23-25 | a stage stops at the first read by which enough bytes are buffered, and waits if there is none |
| `Handshake.DomainIsRequest` | agent/src/transport/socks/message/mod.rs:78-92 | a request with any domain bytes, ill-formed or "0" too, is a request, for what the parser makes of them |
| `Handshake.EveryByteIsAccountedFor` | agent/src/transport/socks/mod.rs:75-106 | in every successful handshake each byte of the stream is in the negotiation, the request, one of the two dropped buffers, or left for the relay |
| `Udp.CollectedExactly` | proxy/src/transport/udp.rs:89-133 | the receive loop has an answer if and only if a receive below 65535 bytes comes before any failure, and it is the concatenation up to and including that receive |
| `Udp.ProxyExec` | proxy/src/transport/udp.rs:32-154 | for every script of socket outcomes: which reply the proxy sends, whether its handler succeeds, and that it sends the request's data to the request's destination exactly when all four socket steps succeed |
| `Udp.RepliesExactly` | proxy/src/transport/udp.rs:43-147 | a reply is sent if and only if the destination is reached, a response is wanted, a short receive comes before any failure and the collected data is not empty; it then carries that data |
| `UdpRelay.RunExchange` | agent/src/transport/socks/mod.rs:141-155 | one exchange on one connection: the agent's codec encodes, the proxy's decodes, the handler runs, and the reply goes back through the same two codecs, over any pieces that arrive; also what the destination gets |
| `UdpRelay.RequestArrivesAs` | agent/src/transport/socks/mod.rs:141-150 | what arrives at the proxy is the client's data for the destination it named, for that user and client, under the agent's token |
| `UdpRelay.DestinationGetsExactly` | proxy/src/transport/udp.rs:43-82 | a destination gets a datagram if and only if a well-formed one of the associated client gets through and the proxy's socket steps succeed; it is the client's data, at the address the client named |
| `UdpRelay.DataReachesDestination` | agent/src/transport/socks/mod.rs:137-148 | for literal datagram bytes, what the destination gets is exactly the bytes behind the address |
| `UdpRelay.ReadBackExactly` | agent/src/transport/socks/mod.rs:141-167 | the agent reads a reply if and only if both frames get through whole, the destination answers, and both ends mark their frames faithfully; it is then the proxy's answer unchanged, under the proxy's token |
| `UdpRelay.Serve` | agent/src/transport/socks/mod.rs:128-176 | one turn of the agent's loop ignores, answers or stops, and makes a destination get, what the specification says, running parser, exchange and printer |
| `UdpRelay.RelayUdpData` | agent/src/transport/socks/mod.rs:123-178 | the agent's loop sends exactly the answers of the specification over every script of receives |
| `UdpRelay.AnswersExactly` | agent/src/transport/socks/mod.rs:126-177 | a datagram is answered if and only if it is a well-formed one of the associated client, the exchange succeeds, and each end compresses or has a flag of its own for uncompressed bodies |
| `UdpRelay.AnswerIsRight` | agent/src/transport/socks/mod.rs:139-176 | an answer goes to the associated client and carries the collected receives under the destination the client asked for; the client parses it so if and only if that destination can be printed |
| `UdpRelay.ForeignDatagramsIgnored` | agent/src/transport/socks/mod.rs:132-136 | removing every datagram of another source changes no answer |
| `UdpRelay.AnswersInOrder` | agent/src/transport/socks/mod.rs:126-177 | the answers are, in order and one each, those to the client's first datagrams, up to the first that gets none or whose answer is not delivered |

## Left out

- Sockets, timeouts, DNS lookup, the asynchronous runtime and its `Sink`, `Stream` and `Pin` wrappers: outcomes are step choices or scripts, connections are FIFO byte pipes.
- Buffer reservation, running out of memory for a huge announced body, and a `usize` narrower than 64 bits.
- The inside of gzip, RSA, the AES rounds and the random tokens; only the laws listed above are used.
- A connection that ends in the middle of a frame: the end of a stream is a step that stops the reader, not a decoder call of its own; a reader may stop at any time.
- Calls of a decoder after it has failed: the connections stop reading at the first error, and so do the drivers here.
- Panics for a wrong AES key length and for a missing SOCKS5 method are error outcomes (`BadKeyLength`, `AuthPanics`); unwinding is not modelled.
- The relay tasks and the TCP handler as objects of their own: `Session` has their steps as functions on values, so that they can interleave; aliasing of the connection halves is not captured.
- The task that relays from the agent to the destination is not part of `Server`: it never touches the counter.
- A reply whose client address is a domain would be resolved before it is sent; the associated client's address is a socket address whenever there is a reply.
- HTTP and URL parsing, and the encoders of HTTP and SOCKS5 replies to the client; of the HTTP transport only the exchange with the proxy and the optional initial data remain.
- Rejecting loopback and unspecified destinations, message id generation, address iteration, the payload encryption selectors: single-branch code.
- The SOCKS5 BIND command, which the agent does not implement.
- Configuration, key loading and generation, logging, error texts and the main functions.
- DrainIsPossible: states that a drain exists from every state, not that a scheduler performs it; fairness of the runtime is not modelled.
- TunnelOpens: states that an opening run exists; failures of the network can still end any run.
