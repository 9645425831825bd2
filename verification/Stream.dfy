/**
  A byte stream of frames, read in pieces. `ParseStream` is the reference: it reads a whole byte
  string at once and keeps no state. The stateful decoder, driven until it waits after every
  read, produces the same thing for every cut of the stream.
 */
module Stream {
  import opened Wrappers
  import opened Octets
  import opened Messages
  import opened Codec

  datatype Stop = Waiting(status: Status, rest: seq<byte>) | Broken(error: CodecError)

  datatype Parsed = Parsed(items: seq<Message>, stop: Stop) {
    function After(earlier: seq<Message>): Parsed {
      Parsed(earlier + items, stop)
    }
  }

  /** One-shot parse of a whole byte string: all its messages, then why it stops. */
  function ParseStream(e: Endpoint, dir: Direction, s: seq<byte>): Parsed
    decreases |s|
  {
    if |s| < HEADER_LENGTH then Parsed([], Waiting(Head, s))
    else if s[..FLAG_LENGTH] != PPAASS_FLAG then Parsed([], Broken(InvalidMessageFlag))
    else
      var compressed, length, rest := s[FLAG_LENGTH] == 1, HeaderLength(s), s[HEADER_LENGTH..];
      if |rest| < length then Parsed([], Waiting(Data(compressed, length), rest)) else
      match OpenBody(e, dir, compressed, rest[..length])
      case Refused(error, _) => Parsed([], Broken(error))
      case Opened(m) => ParseStream(e, dir, rest[length..]).After([m])
  }

  /** The parse of `s` by a decoder that may already have read a header. */
  function Resume(e: Endpoint, dir: Direction, status: Status, s: seq<byte>): Parsed {
    match status
    case Head => ParseStream(e, dir, s)
    case Data(compressed, length) =>
      if |s| < length then Parsed([], Waiting(status, s)) else
      match OpenBody(e, dir, compressed, s[..length])
      case Refused(error, _) => Parsed([], Broken(error))
      case Opened(m) => ParseStream(e, dir, s[length..]).After([m])
  }

  /** One call of the decoder takes one item off the parse. */
  lemma CallAgrees(e: Endpoint, dir: Direction, status: Status, s: seq<byte>)
    ensures var c := DecodeCall(e, dir, status, s);
      Resume(e, dir, status, s) == match c.outcome
        case Nothing => Parsed([], Waiting(c.status, c.buffer))
        case Item(m) => Resume(e, dir, c.status, c.buffer).After([m])
        case Failed(error) => Parsed([], Broken(error))
  {
  }

  /** Bytes behind the ones a call looks at do not change it. */
  lemma BodyCallAppend(e: Endpoint, dir: Direction, compressed: bool, length: u64, s: seq<byte>, x: seq<byte>)
    requires |s| >= length
    ensures var c := BodyCall(e, dir, compressed, length, s);
      BodyCall(e, dir, compressed, length, s + x) == c.(buffer := c.buffer + x)
  {
    assert (s + x)[..length] == s[..length] && (s + x)[length..] == s[length..] + x;
  }

  lemma HeaderAppend(s: seq<byte>, x: seq<byte>)
    requires |s| >= HEADER_LENGTH
    ensures (s + x)[..FLAG_LENGTH] == s[..FLAG_LENGTH] && (s + x)[FLAG_LENGTH] == s[FLAG_LENGTH]
    ensures HeaderLength(s + x) == HeaderLength(s) && (s + x)[HEADER_LENGTH..] == s[HEADER_LENGTH..] + x
    ensures (s + x)[FLAG_LENGTH..] == s[FLAG_LENGTH..] + x
  {
    assert (s + x)[STUB_LENGTH..HEADER_LENGTH] == s[STUB_LENGTH..HEADER_LENGTH];
  }

  lemma CallAppend(e: Endpoint, dir: Direction, status: Status, s: seq<byte>, x: seq<byte>)
    ensures var c := DecodeCall(e, dir, status, s);
      if c.outcome.Nothing? then Resume(e, dir, status, s + x) == Resume(e, dir, c.status, c.buffer + x)
      else DecodeCall(e, dir, status, s + x) == c.(buffer := c.buffer + x)
  {
    match status
    case Data(compressed, length) =>
      if |s| >= length {
        BodyCallAppend(e, dir, compressed, length, s, x);
      }
    case Head =>
      if |s| >= HEADER_LENGTH {
        HeaderAppend(s, x);
        if |s| - HEADER_LENGTH >= HeaderLength(s) {
          BodyCallAppend(e, dir, s[FLAG_LENGTH] == 1, HeaderLength(s), s[HEADER_LENGTH..], x);
        }
      }
  }

  /** Parsing more bytes continues where the parse of the first ones stopped. */
  lemma {:induction false} ResumeAppend(e: Endpoint, dir: Direction, status: Status, s: seq<byte>, x: seq<byte>)
    ensures var p := Resume(e, dir, status, s);
      Resume(e, dir, status, s + x) == match p.stop
        case Waiting(st, rest) => Resume(e, dir, st, rest + x).After(p.items)
        case Broken(_) => p
    decreases Measure(status, s)
  {
    var c := DecodeCall(e, dir, status, s);
    CallAgrees(e, dir, status, s);
    CallAppend(e, dir, status, s, x);
    match c.outcome
    case Nothing =>
      assert Resume(e, dir, c.status, c.buffer + x).After([]) == Resume(e, dir, c.status, c.buffer + x);
    case Failed(_) =>
      CallAgrees(e, dir, status, s + x);
    case Item(m) =>
      DecodeCallShape(e, dir, status, s);
      CallAgrees(e, dir, status, s + x);
      ResumeAppend(e, dir, c.status, c.buffer, x);
      var p := Resume(e, dir, c.status, c.buffer);
      if p.stop.Waiting? {
        AfterAfter(Resume(e, dir, p.stop.status, p.stop.rest + x), [m], p.items);
      }
  }

  lemma AfterAfter(p: Parsed, a: seq<Message>, b: seq<Message>)
    ensures p.After(b).After(a) == p.After(a + b)
  {
    assert a + (b + p.items) == a + b + p.items;
  }

  /** A parse that waits leaves a waiting decoder: parsing on from there finds nothing more. */
  lemma {:induction false} WaitingIsSettled(e: Endpoint, dir: Direction, status: Status, s: seq<byte>)
    ensures var p := Resume(e, dir, status, s);
      p.stop.Waiting? ==> Waits(p.stop.status, p.stop.rest)
                          && Resume(e, dir, p.stop.status, p.stop.rest) == Parsed([], p.stop)
    decreases Measure(status, s)
  {
    var c := DecodeCall(e, dir, status, s);
    CallAgrees(e, dir, status, s);
    DecodeCallShape(e, dir, status, s);
    if c.outcome.Item? {
      WaitingIsSettled(e, dir, c.status, c.buffer);
    }
  }

  // ----- driving the decoder -----

  /** Feeding the reads one by one, draining the decoder after each, until the first error. */
  function ReadChunks(e: Endpoint, dir: Direction, status: Status, buffer: seq<byte>, chunks: seq<seq<byte>>): Parsed
    decreases |chunks|
  {
    if chunks == [] then Parsed([], Waiting(status, buffer)) else
    var p := Resume(e, dir, status, buffer + chunks[0]);
    match p.stop
    case Waiting(st, rest) => ReadChunks(e, dir, st, rest, chunks[1..]).After(p.items)
    case Broken(_) => p
  }

  lemma {:induction false} ChunksFrom(e: Endpoint, dir: Direction, status: Status, buffer: seq<byte>, chunks: seq<seq<byte>>)
    requires Waits(status, buffer)
    ensures ReadChunks(e, dir, status, buffer, chunks) == Resume(e, dir, status, buffer + Flatten(chunks))
    decreases |chunks|
  {
    if chunks == [] {
      assert buffer + Flatten(chunks) == buffer;
    } else {
      var s, x := buffer + chunks[0], Flatten(chunks[1..]);
      assert buffer + Flatten(chunks) == s + x;
      ResumeAppend(e, dir, status, s, x);
      WaitingIsSettled(e, dir, status, s);
      var p := Resume(e, dir, status, s);
      if p.stop.Waiting? {
        ChunksFrom(e, dir, p.stop.status, p.stop.rest, chunks[1..]);
      }
    }
  }

  /**
    Whatever the bytes and however they are cut, the stateful decoder yields the messages, the first
    error, and otherwise the final status and leftover bytes of the one-shot parse of all of them.
   */
  lemma ChunkIndependence(e: Endpoint, dir: Direction, chunks: seq<seq<byte>>)
    ensures ReadChunks(e, dir, Head, [], chunks) == ParseStream(e, dir, Flatten(chunks))
  {
    ChunksFrom(e, dir, Head, [], chunks);
    assert [] + Flatten(chunks) == Flatten(chunks);
  }

  /** Appends one read to the buffer and calls the decoder until it waits or fails. */
  method ReadChunk(codec: ConnectionCodec, src: BytesMut, chunk: seq<byte>)
    returns (items: seq<Message>, error: Option<CodecError>)
    modifies codec`status, src
    ensures var p := Resume(codec.end, codec.decodes, old(codec.status), old(src.data) + chunk);
      && items == p.items
      && match p.stop
         case Waiting(st, rest) => error == None && codec.status == st && src.data == rest
         case Broken(e) => error == Some(e)
  {
    src.Put(chunk);
    items := [];
    ghost var whole := Resume(codec.end, codec.decodes, codec.status, src.data);
    while true
      invariant whole == Resume(codec.end, codec.decodes, codec.status, src.data).After(items)
      decreases Measure(codec.status, src.data)
    {
      CallAgrees(codec.end, codec.decodes, codec.status, src.data);
      DecodeCallShape(codec.end, codec.decodes, codec.status, src.data);
      ghost var st, b := codec.status, src.data;
      var outcome := codec.Decode(src);
      match outcome {
        case Nothing => return items, None;
        case Failed(e) => return items, Some(e);
        case Item(m) =>
          AfterAfter(Resume(codec.end, codec.decodes, codec.status, src.data), items, [m]);
          items := items + [m];
      }
    }
  }

  /** Reads a whole connection, however it is cut, stopping at the first error. */
  method ReadAll(codec: ConnectionCodec, src: BytesMut, chunks: seq<seq<byte>>)
    returns (items: seq<Message>, error: Option<CodecError>)
    requires codec.status == Head && src.data == []
    modifies codec`status, src
    ensures var p := ParseStream(codec.end, codec.decodes, Flatten(chunks));
      && items == p.items
      && match p.stop
         case Waiting(st, rest) => error == None && codec.status == st && src.data == rest
         case Broken(e) => error == Some(e)
  {
    items, error := [], None;
    ChunkIndependence(codec.end, codec.decodes, chunks);
    for i := 0 to |chunks|
      invariant error == None
      invariant ReadChunks(codec.end, codec.decodes, Head, [], chunks)
             == ReadChunks(codec.end, codec.decodes, codec.status, src.data, chunks[i..]).After(items)
    {
      ghost var st, b := codec.status, src.data;
      ghost var p := Resume(codec.end, codec.decodes, st, b + chunks[i]);
      assert chunks[i..][1..] == chunks[i + 1..];
      var more, failed := ReadChunk(codec, src, chunks[i]);
      if p.stop.Waiting? {
        AfterAfter(ReadChunks(codec.end, codec.decodes, codec.status, src.data, chunks[i + 1..]), items, more);
      }
      items, error := items + more, failed;
      if failed.Some? {
        return;
      }
    }
  }

  // ----- streams of encoded messages -----

  /** A message and the randomness its token was wrapped with. */
  datatype Sent = Sent(message: Message, random: nat)

  predicate Encodes(from: Endpoint, cfg: Config, x: Sent) {
    Frame(from, cfg, x.message, x.random).Ok?
  }

  ghost predicate Sendable(from: Endpoint, to: Endpoint, cfg: Config, dir: Direction, x: Sent) {
    && Peers(from, to, x.message.user)
    && Encodes(from, cfg, x)
    && Representable(from, cfg, x.message, x.random)
    && DirectionOf(x.message.payload) == dir
  }

  ghost predicate AllSendable(from: Endpoint, to: Endpoint, cfg: Config, dir: Direction, log: seq<Sent>) {
    forall i | 0 <= i < |log| :: Sendable(from, to, cfg, dir, log[i])
  }

  function Encoded(from: Endpoint, cfg: Config, x: Sent): seq<byte> {
    var frame := Frame(from, cfg, x.message, x.random);
    if frame.Ok? then frame.value else Stub(cfg)
  }

  function Frames(from: Endpoint, cfg: Config, log: seq<Sent>): seq<seq<byte>> {
    seq(|log|, i requires 0 <= i < |log| => Encoded(from, cfg, log[i]))
  }

  /** The bytes the encoder appends for a list of messages. */
  function EncodedAll(from: Endpoint, cfg: Config, log: seq<Sent>): seq<byte> {
    Flatten(Frames(from, cfg, log))
  }

  lemma EncodedAllCons(from: Endpoint, cfg: Config, log: seq<Sent>)
    requires log != []
    ensures EncodedAll(from, cfg, log) == Encoded(from, cfg, log[0]) + EncodedAll(from, cfg, log[1..])
  {
    hide Encoded;
    assert Frames(from, cfg, log)[1..] == Frames(from, cfg, log[1..]);
  }

  function Arriving(from: Endpoint, x: Sent): Message {
    if Seal(from, x.message, x.random).Ok? then Received(from, x.message, x.random) else x.message
  }

  function ArrivingAll(from: Endpoint, log: seq<Sent>): (r: seq<Message>)
    ensures |r| == |log| && forall i :: 0 <= i < |log| ==> r[i] == Arriving(from, log[i])
  {
    seq(|log|, i requires 0 <= i < |log| => Arriving(from, log[i]))
  }

  lemma ArrivingAllCons(from: Endpoint, log: seq<Sent>)
    requires log != []
    ensures ArrivingAll(from, log) == [Arriving(from, log[0])] + ArrivingAll(from, log[1..])
  {
  }

  /** One encoded message at the front of a stream comes off as one item. */
  lemma ParseEncoded(from: Endpoint, to: Endpoint, cfg: Config, dir: Direction, x: Sent, tail: seq<byte>)
    requires Sendable(from, to, cfg, dir, x) && cfg.MarksFaithfully()
    ensures ParseStream(to, dir, Encoded(from, cfg, x) + tail) == ParseStream(to, dir, tail).After([Arriving(from, x)])
  {
    FrameRoundTrip(from, to, cfg, x.message, x.random, tail);
    CallAgrees(to, dir, Head, Encoded(from, cfg, x) + tail);
  }

  lemma {:induction false} ParseEncodedAll(
      from: Endpoint, to: Endpoint, cfg: Config, dir: Direction, log: seq<Sent>, tail: seq<byte>)
    requires AllSendable(from, to, cfg, dir, log) && cfg.MarksFaithfully()
    ensures ParseStream(to, dir, EncodedAll(from, cfg, log) + tail)
         == ParseStream(to, dir, tail).After(ArrivingAll(from, log))
    decreases |log|
  {
    if log == [] {
      assert EncodedAll(from, cfg, log) + tail == tail;
    } else {
      var rest := EncodedAll(from, cfg, log[1..]);
      EncodedAllCons(from, cfg, log);
      Assoc(Encoded(from, cfg, log[0]), rest, tail);
      ParseEncoded(from, to, cfg, dir, log[0], rest + tail);
      ParseEncodedAll(from, to, cfg, dir, log[1..], tail);
      ArrivingAllCons(from, log);
      AfterAfter(ParseStream(to, dir, tail), [Arriving(from, log[0])], ArrivingAll(from, log[1..]));
    }
  }

  /**
    Every sequence of messages, encoded into one stream and cut into reads in any way, arrives in
    order, each message exactly once, and leaves the decoder at `Head` with nothing buffered.
   */
  lemma StreamingRoundTrip(
      from: Endpoint, to: Endpoint, cfg: Config, dir: Direction, log: seq<Sent>, chunks: seq<seq<byte>>)
    requires AllSendable(from, to, cfg, dir, log) && cfg.MarksFaithfully()
    requires Flatten(chunks) == EncodedAll(from, cfg, log)
    ensures ReadChunks(to, dir, Head, [], chunks) == Parsed(ArrivingAll(from, log), Waiting(Head, []))
  {
    ChunkIndependence(to, dir, chunks);
    ParseEncodedAll(from, to, cfg, dir, log, []);
    assert EncodedAll(from, cfg, log) + [] == EncodedAll(from, cfg, log);
  }

  /** A frame of which a part is missing yields no message, whatever its marking. */
  lemma PartialFrame(from: Endpoint, to: Endpoint, cfg: Config, dir: Direction, x: Sent, n: nat)
    requires Encodes(from, cfg, x) && Representable(from, cfg, x.message, x.random)
    requires n < |Encoded(from, cfg, x)|
    ensures ParseStream(to, dir, Encoded(from, cfg, x)[..n]).items == []
  {
    hide Seal, OpenBody;
    PartialBody(to, dir, cfg, BodyOf(from, cfg, Seal(from, x.message, x.random).value), n);
  }

  lemma PartialBody(e: Endpoint, dir: Direction, cfg: Config, body: seq<byte>, n: nat)
    requires |body| < U64_LIMIT && n < |FrameOf(cfg, body)|
    ensures ParseStream(e, dir, FrameOf(cfg, body)[..n]).items == []
  {
    hide OpenBody;
    var frame, s := FrameOf(cfg, body), FrameOf(cfg, body)[..n];
    if n >= HEADER_LENGTH {
      FrameParts(cfg, body, []);
      HeaderAppend(s, frame[n..]);
      assert frame == s + frame[n..] && frame + [] == frame;
    }
  }

  /** A frame that is marked as compressed but is not fails the parse at once. */
  lemma FirstFrameFails(from: Endpoint, to: Endpoint, cfg: Config, dir: Direction, x: Sent, tail: seq<byte>)
    requires !cfg.MarksFaithfully() && GzipMagic(to.lib) && Encodes(from, cfg, x)
    requires Representable(from, cfg, x.message, x.random) && |x.message.id| == ID_LENGTH
    ensures ParseStream(to, dir, Encoded(from, cfg, x) + tail) == Parsed([], Broken(BadCompression))
  {
    var cm := Seal(from, x.message, x.random).value;
    var body := BodyOf(from, cfg, cm);
    SealKeepsNames(from, x.message, x.random);
    RawBodyIsNotGzip(cm);
    RawBodyRefused(to, dir, body);
    FrameCall(to, dir, cfg, body, tail);
    CallAgrees(to, dir, Head, Encoded(from, cfg, x) + tail);
  }

  /**
    The streaming round trip holds exactly when bodies are compressed or the two flags differ; otherwise
    not even the first message of a stream arrives.
   */
  lemma StreamingRoundTripExactly(
      from: Endpoint, to: Endpoint, cfg: Config, dir: Direction, log: seq<Sent>, chunks: seq<seq<byte>>)
    requires AllSendable(from, to, cfg, dir, log) && log != [] && Flatten(chunks) == EncodedAll(from, cfg, log)
    requires GzipMagic(to.lib) && |log[0].message.id| == ID_LENGTH
    ensures ReadChunks(to, dir, Head, [], chunks) == Parsed(ArrivingAll(from, log), Waiting(Head, []))
       <==> cfg.MarksFaithfully()
    ensures !cfg.MarksFaithfully() ==> ReadChunks(to, dir, Head, [], chunks) == Parsed([], Broken(BadCompression))
  {
    if cfg.MarksFaithfully() {
      StreamingRoundTrip(from, to, cfg, dir, log, chunks);
    } else {
      hide ParseStream, ReadChunks;
      ChunkIndependence(to, dir, chunks);
      EncodedAllCons(from, cfg, log);
      FirstFrameFails(from, to, cfg, dir, log[0], EncodedAll(from, cfg, log[1..]));
    }
  }

  /** Until all of the stream has arrived, what came out is a prefix of what was sent, and no error. */
  lemma PartialStream(
      from: Endpoint, to: Endpoint, cfg: Config, dir: Direction, log: seq<Sent>, chunks: seq<seq<byte>>, missing: seq<byte>)
    requires AllSendable(from, to, cfg, dir, log) && cfg.MarksFaithfully()
    requires Flatten(chunks) + missing == EncodedAll(from, cfg, log)
    ensures var p := ReadChunks(to, dir, Head, [], chunks);
      p.stop.Waiting? && p.items <= ArrivingAll(from, log)
  {
    ChunkIndependence(to, dir, chunks);
    ParseEncodedAll(from, to, cfg, dir, log, []);
    assert EncodedAll(from, cfg, log) + [] == EncodedAll(from, cfg, log);
    var p := ParseStream(to, dir, Flatten(chunks));
    PrefixParse(to, dir, Flatten(chunks), missing);
    assert ParseStream(to, dir, []).After(ArrivingAll(from, log)).items == ArrivingAll(from, log);
  }

  /** The parse of a prefix finds a prefix of the messages, and fails only if the whole parse does. */
  lemma PrefixParse(e: Endpoint, dir: Direction, s: seq<byte>, x: seq<byte>)
    ensures ParseStream(e, dir, s).items <= ParseStream(e, dir, s + x).items
    ensures ParseStream(e, dir, s + x).stop.Waiting? ==> ParseStream(e, dir, s).stop.Waiting?
  {
    ResumeAppend(e, dir, Head, s, x);
  }

  /** Appends the frame of one message, or the 11-byte stub when it can not be encoded. */
  method WriteOne(codec: ConnectionCodec, x: Sent, dst: BytesMut) returns (ok: bool)
    requires LibraryLaws(codec.end.lib)
    modifies dst
    ensures ok == Encodes(codec.end, codec.config, x)
    ensures dst.data == old(dst.data) + Encoded(codec.end, codec.config, x)
  {
    var r := codec.Encode(x.message, x.random, dst);
    ok := r.Ok?;
  }

  /** How many leading messages of `log` can be encoded. */
  function Encodable(from: Endpoint, cfg: Config, log: seq<Sent>): (n: nat)
    ensures n <= |log|
  {
    if log == [] || !Encodes(from, cfg, log[0]) then 0 else 1 + Encodable(from, cfg, log[1..])
  }

  /** Encodes messages one after the other, stopping behind the first that fails. */
  method WriteAll(codec: ConnectionCodec, log: seq<Sent>, dst: BytesMut) returns (tried: nat, ok: bool)
    requires LibraryLaws(codec.end.lib)
    modifies dst
    ensures tried <= |log|
    ensures dst.data == old(dst.data) + EncodedAll(codec.end, codec.config, log[..tried])
    ensures ok == (Encodable(codec.end, codec.config, log) == |log|)
    ensures tried == if ok then |log| else Encodable(codec.end, codec.config, log) + 1
  {
    tried, ok := 0, true;
    ghost var before := dst.data;
    while tried < |log|
      invariant tried <= |log| && ok
      invariant Encodable(codec.end, codec.config, log) == tried + Encodable(codec.end, codec.config, log[tried..])
      invariant dst.data == before + EncodedAll(codec.end, codec.config, log[..tried])
    {
      EncodedAllGrows(codec.end, codec.config, log, tried, before, dst.data);
      assert log[tried..][0] == log[tried] && log[tried..][1..] == log[tried + 1..];
      ok := WriteOne(codec, log[tried], dst);
      tried := tried + 1;
      if !ok {
        return;
      }
    }
  }

  lemma EncodedAllSnoc(from: Endpoint, cfg: Config, log: seq<Sent>, x: Sent)
    ensures EncodedAll(from, cfg, log + [x]) == EncodedAll(from, cfg, log) + Encoded(from, cfg, x)
  {
    var frames := Frames(from, cfg, log + [x]);
    assert frames[..|log|] == Frames(from, cfg, log) && frames[..|log| + 1] == frames;
    FlattenLast(frames, |log|);
  }

  lemma EncodedAllGrows(from: Endpoint, cfg: Config, log: seq<Sent>, i: nat, before: seq<byte>, data: seq<byte>)
    requires i < |log| && data == before + EncodedAll(from, cfg, log[..i])
    ensures data + Encoded(from, cfg, log[i]) == before + EncodedAll(from, cfg, log[..i + 1])
  {
    assert log[..i + 1] == log[..i] + [log[i]];
    EncodedAllSnoc(from, cfg, log[..i], log[i]);
    Assoc(before, EncodedAll(from, cfg, log[..i]), Encoded(from, cfg, log[i]));
  }
}
