/**
  The frame codec. A frame is a 10-byte flag, one compression byte, a big-endian 64-bit body length
  and the body. The decoder keeps a two-valued status between calls; the encoder appends to its buffer.
  The agent-side connection decodes `Down` messages and encodes `Up` ones; the proxy side is its mirror.
 */
module Codec {
  import opened Wrappers
  import opened Octets
  import opened Utf8
  import opened Messages
  import opened AesCipher = Aes

  const PPAASS_FLAG: seq<byte> := [0x5F, 0x5F, 0x50, 0x50, 0x41, 0x41, 0x53, 0x53, 0x5F, 0x5F]
  const FLAG_LENGTH: nat := 10
  const STUB_LENGTH: nat := 11
  const HEADER_LENGTH: nat := 19
  const COMPRESS_FLAG: byte := 1

  /** The value the code writes for uncompressed bodies: the same as `COMPRESS_FLAG`. */
  const UN_COMPRESS_FLAG: byte := 1

  /** Encoder settings; `rawFlag` is `UN_COMPRESS_FLAG` in the code as it stands. */
  datatype Config = Config(compress: bool, rawFlag: byte) {
    /** The compression byte the encoder writes. */
    function Mark(): byte {
      if compress then COMPRESS_FLAG else rawFlag
    }

    /** The decoder will treat the body the way the encoder did. */
    predicate MarksFaithfully() {
      compress || rawFlag != COMPRESS_FLAG
    }
  }

  // ----- libraries and keys -----

  /** RSA with the randomness of encryption as an argument; both operations may fail. */
  datatype Rsa = Rsa(encrypt: (seq<byte>, nat) -> Option<seq<byte>>, decrypt: seq<byte> -> Option<seq<byte>>)

  datatype Fetched = FetchFailed | NoKeys | Keys(rsa: Rsa)

  datatype Library = Library(gzip: seq<byte> -> seq<byte>, gunzip: seq<byte> -> Option<seq<byte>>, cipher: BlockCipher)

  /** One end of a connection: the libraries and the keys it holds for each user. */
  datatype Endpoint = Endpoint(lib: Library, fetch: Str -> Fetched)

  ghost predicate LibraryLaws(lib: Library) {
    && (forall b :: lib.gunzip(lib.gzip(b)) == Some(b))
    && Invertible(lib.cipher)
  }

  /** A gzip member begins with the two bytes of section 2.3.1 of RFC 1952. */
  ghost predicate GzipMagic(lib: Library) {
    forall b :: lib.gunzip(b).Some? ==> |b| >= 2 && b[0] == 0x1F && b[1] == 0x8B
  }

  /** `to` holds the private half of the key `from` encrypts with for `user`. */
  ghost predicate KeyPair(from: Endpoint, to: Endpoint, user: Str) {
    && from.fetch(user).Keys? && to.fetch(user).Keys?
    && forall token, random | from.fetch(user).rsa.encrypt(token, random).Some? ::
         to.fetch(user).rsa.decrypt(from.fetch(user).rsa.encrypt(token, random).value) == Some(token)
  }

  ghost predicate Peers(from: Endpoint, to: Endpoint, user: Str) {
    from.lib == to.lib && LibraryLaws(from.lib) && KeyPair(from, to, user)
  }

  datatype CodecError =
    | InvalidMessageFlag
    | BadCompression
    | BadMessage
    | BadPayload
    | RsaFetch
    | RsaNotFound(user: Str)
    | RsaFailure
    | AesFailure(aes: AesError)

  // ----- sealing and opening a message -----

  function KeysOf(e: Endpoint, user: Str): Result<Rsa, CodecError> {
    match e.fetch(user)
    case FetchFailed => Err(RsaFetch)
    case NoKeys => Err(RsaNotFound(user))
    case Keys(rsa) => Ok(rsa)
  }

  function Seal(e: Endpoint, m: Message, random: nat): Result<CodecMessage, CodecError> {
    var rsa :- KeysOf(e, m.user);
    match m.encryption
    case Plain => Ok(CodecMessage(m.id, m.user, Plain, SerPayload(m.payload)))
    case Aes(token) =>
      match rsa.encrypt(token, random)
      case None => Err(RsaFailure)
      case Some(wrapped) =>
        if |token| != KEY_LENGTH then Err(AesFailure(BadKeyLength))
        else Ok(CodecMessage(m.id, m.user, Aes(wrapped), Encrypted(e.lib.cipher, token, SerPayload(m.payload))))
  }

  /** The result of opening a body, and whether the decoder had gone back to `Head` by then. */
  datatype Opened = Opened(message: Message) | Refused(error: CodecError, atHead: bool)

  function Unseal(e: Endpoint, cm: CodecMessage): Result<seq<byte>, CodecError> {
    var rsa :- KeysOf(e, cm.user);
    match cm.encryption
    case Plain => Ok(cm.payload)
    case Aes(wrapped) =>
      match rsa.decrypt(wrapped)
      case None => Err(RsaFailure)
      case Some(token) =>
        if |token| != KEY_LENGTH then Err(AesFailure(BadKeyLength)) else
        match Decrypted(e.lib.cipher, token, cm.payload)
        case None => Err(AesFailure(BadPadding))
        case Some(plain) => Ok(plain)
  }

  /** The decoded message keeps the wrapped token, not the one it was encrypted with. */
  function OpenBody(e: Endpoint, dir: Direction, compressed: bool, body: seq<byte>): Opened {
    match if compressed then e.lib.gunzip(body) else Some(body)
    case None => Refused(BadCompression, false)
    case Some(raw) =>
      match DeCodecMessage(raw)
      case None => Refused(BadMessage, false)
      case Some((cm, _)) =>
        match Unseal(e, cm)
        case Err(error) => Refused(error, false)
        case Ok(plain) =>
          match DePayload(dir, plain)
          case None => Refused(BadPayload, true)
          case Some((payload, _)) => Opened(Message(cm.id, cm.user, cm.encryption, payload))
  }

  // ----- frames -----

  function Stub(cfg: Config): (s: seq<byte>)
    ensures |s| == STUB_LENGTH
  {
    PPAASS_FLAG + [cfg.Mark()]
  }

  function BodyOf(e: Endpoint, cfg: Config, cm: CodecMessage): seq<byte> {
    if cfg.compress then e.lib.gzip(SerCodecMessage(cm)) else SerCodecMessage(cm)
  }

  function FrameOf(cfg: Config, body: seq<byte>): seq<byte> {
    Stub(cfg) + Be(|body|, 8) + body
  }

  function Frame(e: Endpoint, cfg: Config, m: Message, random: nat): Result<seq<byte>, CodecError> {
    var cm :- Seal(e, m, random);
    Ok(FrameOf(cfg, BodyOf(e, cfg, cm)))
  }

  /** Every length the encoder writes fits 64 bits, as it does for anything held in memory. */
  predicate Representable(e: Endpoint, cfg: Config, m: Message, random: nat) {
    PayloadFits(m.payload) &&
    (Seal(e, m, random).Ok? ==>
      CodecMessageFits(Seal(e, m, random).value) && |BodyOf(e, cfg, Seal(e, m, random).value)| < U64_LIMIT)
  }

  /** What the peer decodes from the frame of `m`. */
  function Received(e: Endpoint, m: Message, random: nat): Message
    requires Seal(e, m, random).Ok?
  {
    Message(m.id, m.user, Seal(e, m, random).value.encryption, NormalPayload(m.payload))
  }

  // ----- one call of the decoder -----

  datatype Status = Head | Data(compressed: bool, length: u64)

  datatype Outcome = Nothing | Item(message: Message) | Failed(error: CodecError)

  datatype Call = Call(outcome: Outcome, status: Status, buffer: seq<byte>)

  function BodyCall(e: Endpoint, dir: Direction, compressed: bool, length: u64, buffer: seq<byte>): Call {
    if |buffer| < length then Call(Nothing, Data(compressed, length), buffer) else
    match OpenBody(e, dir, compressed, buffer[..length])
    case Opened(m) => Call(Item(m), Head, buffer[length..])
    case Refused(error, atHead) => Call(Failed(error), if atHead then Head else Data(compressed, length), buffer[length..])
  }

  function HeaderLength(header: seq<byte>): u64
    requires |header| >= HEADER_LENGTH
  {
    Pow256Values();
    FromBe(header[STUB_LENGTH..HEADER_LENGTH])
  }

  function DecodeCall(e: Endpoint, dir: Direction, status: Status, buffer: seq<byte>): Call {
    match status
    case Data(compressed, length) => BodyCall(e, dir, compressed, length, buffer)
    case Head =>
      if |buffer| < HEADER_LENGTH then Call(Nothing, Head, buffer)
      else if buffer[..FLAG_LENGTH] != PPAASS_FLAG then Call(Failed(InvalidMessageFlag), Head, buffer[FLAG_LENGTH..])
      else BodyCall(e, dir, buffer[FLAG_LENGTH] == 1, HeaderLength(buffer), buffer[HEADER_LENGTH..])
  }

  /** The decoder waits exactly when the header, or the announced body, is not complete. */
  predicate Waits(status: Status, buffer: seq<byte>) {
    match status
    case Head => |buffer| < HEADER_LENGTH
    case Data(_, length) => |buffer| < length
  }

  /** The bytes of `buffer`, counting one for a header already read. */
  function Measure(status: Status, buffer: seq<byte>): nat {
    |buffer| + if status.Data? then 1 else 0
  }

  /**
    `Nothing` leaves a waiting decoder and moves no byte beyond a header; `Item` leaves it at `Head`
    with one whole frame gone, so draining a buffer terminates.
   */
  lemma DecodeCallShape(e: Endpoint, dir: Direction, status: Status, buffer: seq<byte>)
    ensures var c := DecodeCall(e, dir, status, buffer);
      && (c.outcome.Nothing? ==> Waits(c.status, c.buffer))
      && (c.outcome.Nothing? ==> c.buffer == if status == c.status then buffer else buffer[HEADER_LENGTH..])
      && (c.outcome.Item? ==> c.status == Head && Measure(c.status, c.buffer) < Measure(status, buffer))
      && (c.outcome.Item? ==> FrameEnd(status, buffer) <= |buffer| && c.buffer == buffer[FrameEnd(status, buffer)..])
  {
    hide OpenBody;
  }

  /** Where the frame at the front of `buffer` ends. */
  function FrameEnd(status: Status, buffer: seq<byte>): nat {
    match status
    case Data(_, length) => length
    case Head => if |buffer| < HEADER_LENGTH then HEADER_LENGTH else HEADER_LENGTH + HeaderLength(buffer)
  }

  lemma RefusalAtHead(e: Endpoint, dir: Direction, compressed: bool, body: seq<byte>)
    ensures match OpenBody(e, dir, compressed, body)
      case Opened(_) => true
      case Refused(error, atHead) => error != InvalidMessageFlag && (atHead <==> error == BadPayload)
  {
    var raw := if compressed then e.lib.gunzip(body) else Some(body);
    if raw.Some? && DeCodecMessage(raw.value).Some? {
      UnsealErrors(e, DeCodecMessage(raw.value).value.0);
    }
    hide DeCodecMessage, DePayload, Unseal;
  }

  lemma UnsealErrors(e: Endpoint, cm: CodecMessage)
    ensures var r := Unseal(e, cm); r.Err? ==> r.error != InvalidMessageFlag && r.error != BadPayload
  {
    hide Decrypted;
  }

  /** After a failure the decoder is at `Head` only for a wrong flag or a payload that does not deserialize. */
  lemma FailureStatus(e: Endpoint, dir: Direction, status: Status, buffer: seq<byte>)
    ensures var c := DecodeCall(e, dir, status, buffer);
      c.outcome.Failed? ==>
        (c.status == Head <==> c.outcome.error == InvalidMessageFlag || c.outcome.error == BadPayload)
  {
    hide OpenBody;
    match status {
      case Data(compressed, length) =>
        if |buffer| >= length {
          RefusalAtHead(e, dir, compressed, buffer[..length]);
        }
      case Head =>
        if |buffer| >= HEADER_LENGTH {
          var rest := buffer[HEADER_LENGTH..];
          if |rest| >= HeaderLength(buffer) {
            RefusalAtHead(e, dir, buffer[FLAG_LENGTH] == 1, rest[..HeaderLength(buffer)]);
          }
        }
    }
  }

  class ConnectionCodec {
    const end: Endpoint
    const config: Config
    const decodes: Direction
    var status: Status

    constructor (end: Endpoint, config: Config, decodes: Direction)
      ensures this.end == end && this.config == config && this.decodes == decodes && status == Head
    {
      this.end, this.config, this.decodes, status := end, config, decodes, Head;
    }

    /** Consumes at most one frame of `src`. */
    method Decode(src: BytesMut) returns (outcome: Outcome)
      modifies this`status, src
      ensures Call(outcome, status, src.data) == DecodeCall(end, decodes, old(status), old(src.data))
    {
      var compressed, length;
      match status {
        case Head =>
          if |src.data| < HEADER_LENGTH {
            return Nothing;
          }
          var flag := src.SplitTo(FLAG_LENGTH);
          if flag != PPAASS_FLAG {
            return Failed(InvalidMessageFlag);
          }
          var mark := src.GetU8();
          compressed := mark == 1;
          assert src.data[..8] == old(src.data)[STUB_LENGTH..HEADER_LENGTH];
          length := src.GetU64();
          assert src.data == old(src.data)[HEADER_LENGTH..];
          status := Data(compressed, length);
        case Data(c, n) =>
          compressed, length := c, n;
      }
      if |src.data| < length {
        return Nothing;
      }
      status := Data(compressed, length);
      var body := src.SplitTo(length);
      outcome := Open(compressed, body);
    }

    /** Opens a body; the status returns to `Head` before the payload is deserialized. */
    method Open(compressed: bool, body: seq<byte>) returns (outcome: Outcome)
      modifies this`status
      ensures match OpenBody(end, decodes, compressed, body)
        case Opened(m) => outcome == Item(m) && status == Head
        case Refused(error, atHead) => outcome == Failed(error) && status == if atHead then Head else old(status)
    {
      var raw := body;
      if compressed {
        match end.lib.gunzip(body) {
          case None => return Failed(BadCompression);
          case Some(decompressed) => raw := decompressed;
        }
      }
      var message := DeCodecMessage(raw);
      if message.None? {
        return Failed(BadMessage);
      }
      var CodecMessage(id, user, encryption, sealed) := message.value.0;
      var keys := KeysOf(end, user);
      if keys.Err? {
        return Failed(keys.error);
      }
      var plain := sealed;
      if encryption.Aes? {
        var token := keys.value.decrypt(encryption.token);
        if token.None? {
          return Failed(RsaFailure);
        }
        var target := new BytesMut(sealed);
        var decrypted := DecryptWithAes(end.lib.cipher, token.value, target);
        if decrypted.Err? {
          return Failed(AesFailure(decrypted.error));
        }
        plain := decrypted.value;
      }
      status := Head;
      match DePayload(decodes, plain) {
        case None => return Failed(BadPayload);
        case Some((payload, _)) => return Item(Message(id, user, encryption, payload));
      }
    }

    /** Appends the frame of `m`, or on an error the 11 bytes already written by then. */
    method Encode(m: Message, random: nat, dst: BytesMut) returns (r: Result<(), CodecError>)
      requires Invertible(end.lib.cipher)
      modifies dst
      ensures match Frame(end, config, m, random)
        case Ok(frame) => r == Ok(()) && dst.data == old(dst.data) + frame
        case Err(error) => r == Err(error) && dst.data == old(dst.data) + Stub(config)
    {
      ghost var before := dst.data;
      dst.Put(PPAASS_FLAG);
      if config.compress {
        dst.PutU8(COMPRESS_FLAG);
      } else {
        dst.PutU8(config.rawFlag);
      }
      assert dst.data == before + Stub(config);
      var sealed := SealMessage(m, random);
      if sealed.Err? {
        return Err(sealed.error);
      }
      var body := SerCodecMessage(sealed.value);
      if config.compress {
        body := end.lib.gzip(body);
      }
      dst.PutU64(|body|);
      dst.Put(body);
      Assoc(before, Stub(config), Be(|body|, 8));
      Assoc(before, Stub(config) + Be(|body|, 8), body);
      return Ok(());
    }

    method SealMessage(m: Message, random: nat) returns (r: Result<CodecMessage, CodecError>)
      requires Invertible(end.lib.cipher)
      ensures r == Seal(end, m, random)
    {
      var keys := KeysOf(end, m.user);
      if keys.Err? {
        return Err(keys.error);
      }
      match m.encryption {
        case Plain => return Ok(CodecMessage(m.id, m.user, Plain, SerPayload(m.payload)));
        case Aes(token) =>
          var wrapped := keys.value.encrypt(token, random);
          if wrapped.None? {
            return Err(RsaFailure);
          }
          var target := new BytesMut(SerPayload(m.payload));
          var encrypted := EncryptWithAes(end.lib.cipher, token, target);
          if encrypted.Err? {
            return Err(AesFailure(encrypted.error));
          }
          return Ok(CodecMessage(m.id, m.user, Aes(wrapped.value), encrypted.value));
      }
    }
  }

  // ----- a single frame -----

  /** Opening a sealed message at a matching endpoint recovers its serialized payload. */
  lemma UnsealSeal(from: Endpoint, to: Endpoint, m: Message, random: nat)
    requires Peers(from, to, m.user) && Seal(from, m, random).Ok?
    ensures Unseal(to, Seal(from, m, random).value) == Ok(SerPayload(m.payload))
  {
    if m.encryption.Aes? {
      DecryptedEncrypted(from.lib.cipher, m.encryption.token, SerPayload(m.payload));
    }
  }

  lemma OpenBodySteps(
      e: Endpoint, dir: Direction, compressed: bool, body: seq<byte>, raw: seq<byte>,
      cm: CodecMessage, plain: seq<byte>, payload: Payload)
    requires (if compressed then e.lib.gunzip(body) else Some(body)) == Some(raw)
    requires DeCodecMessage(raw) == Some((cm, [])) && Unseal(e, cm) == Ok(plain)
    requires DePayload(dir, plain) == Some((payload, []))
    ensures OpenBody(e, dir, compressed, body) == Opened(Message(cm.id, cm.user, cm.encryption, payload))
  {
  }

  lemma SealKeepsNames(e: Endpoint, m: Message, random: nat)
    requires Seal(e, m, random).Ok?
    ensures Seal(e, m, random).value.id == m.id && Seal(e, m, random).value.user == m.user
  {
  }

  /** The body of a sealed message opens to the received message, when it is opened the way it was packed. */
  lemma OpenSealed(from: Endpoint, to: Endpoint, cfg: Config, m: Message, random: nat)
    requires Peers(from, to, m.user) && Seal(from, m, random).Ok? && Representable(from, cfg, m, random)
    ensures OpenBody(to, DirectionOf(m.payload), cfg.compress, BodyOf(from, cfg, Seal(from, m, random).value))
         == Opened(Received(from, m, random))
  {
    var cm, plain := Seal(from, m, random).value, SerPayload(m.payload);
    SealKeepsNames(from, m, random);
    UnsealSeal(from, to, m, random);
    Opens(to, DirectionOf(m.payload), cfg.compress, BodyOf(from, cfg, cm), cm, m.payload);
  }

  lemma Opens(e: Endpoint, dir: Direction, compressed: bool, body: seq<byte>, cm: CodecMessage, payload: Payload)
    requires CodecMessageFits(cm) && PayloadFits(payload) && dir == DirectionOf(payload)
    requires (if compressed then e.lib.gunzip(body) else Some(body)) == Some(SerCodecMessage(cm))
    requires Unseal(e, cm) == Ok(SerPayload(payload))
    ensures OpenBody(e, dir, compressed, body)
         == Opened(Message(cm.id, cm.user, cm.encryption, NormalPayload(payload)))
  {
    var raw, plain := SerCodecMessage(cm), SerPayload(payload);
    CodecMessageRoundTrip(cm, []);
    assert raw + [] == raw;
    PayloadRoundTrip(payload, []);
    assert plain + [] == plain;
    OpenBodySteps(e, dir, compressed, body, raw, cm, plain, NormalPayload(payload));
  }

  /** The parts of a frame, followed by any bytes. */
  lemma FrameParts(cfg: Config, body: seq<byte>, tail: seq<byte>)
    requires |body| < U64_LIMIT
    ensures |FrameOf(cfg, body)| == HEADER_LENGTH + |body|
    ensures var s := FrameOf(cfg, body) + tail;
      && s[..FLAG_LENGTH] == PPAASS_FLAG && s[FLAG_LENGTH] == cfg.Mark() && HeaderLength(s) == |body|
      && s[HEADER_LENGTH..][..|body|] == body && s[HEADER_LENGTH..][|body|..] == tail
  {
    var s := FrameOf(cfg, body) + tail;
    Pow256Values();
    BeRoundTrip(|body|, 8);
    assert s[STUB_LENGTH..HEADER_LENGTH] == Be(|body|, 8);
  }

  /** How a decoder at the start of a frame sees it. */
  lemma FrameCall(e: Endpoint, dir: Direction, cfg: Config, body: seq<byte>, tail: seq<byte>)
    requires |body| < U64_LIMIT
    ensures DecodeCall(e, dir, Head, FrameOf(cfg, body) + tail)
         == match OpenBody(e, dir, cfg.Mark() == 1, body)
            case Opened(m) => Call(Item(m), Head, tail)
            case Refused(error, atHead) =>
              Call(Failed(error), if atHead then Head else Data(cfg.Mark() == 1, |body|), tail)
  {
    FrameParts(cfg, body, tail);
  }

  /**
    Decoding an encoded message returns its id, user and payload with the wrapped token, and consumes
    exactly the frame.
   */
  lemma FrameRoundTrip(from: Endpoint, to: Endpoint, cfg: Config, m: Message, random: nat, tail: seq<byte>)
    requires Peers(from, to, m.user) && Frame(from, cfg, m, random).Ok? && Representable(from, cfg, m, random)
    requires cfg.MarksFaithfully()
    ensures DecodeCall(to, DirectionOf(m.payload), Head, Frame(from, cfg, m, random).value + tail)
         == Call(Item(Received(from, m, random)), Head, tail)
  {
    OpenSealed(from, to, cfg, m, random);
    FrameCall(to, DirectionOf(m.payload), cfg, BodyOf(from, cfg, Seal(from, m, random).value), tail);
  }

  /** The token in the received message is the wrapped one, and it unwraps to the token that was sent. */
  lemma ReceivedToken(from: Endpoint, to: Endpoint, m: Message, random: nat)
    requires Peers(from, to, m.user) && Seal(from, m, random).Ok?
    ensures match Received(from, m, random).encryption
      case Plain => m.encryption == Plain
      case Aes(wrapped) => m.encryption.Aes? && to.fetch(m.user).rsa.decrypt(wrapped) == Some(m.encryption.token)
  {
  }

  /** Encryption tokens are 32 random bytes. */
  type Token = s: seq<byte> | |s| == KEY_LENGTH witness seq(KEY_LENGTH, _ => 0)

  /** Ids are version 4 UUIDs in text form. */
  const ID_LENGTH: nat := 36

  function SomeId(): (id: Str)
    ensures |id| == ID_LENGTH
  {
    var id: seq<byte> := seq(ID_LENGTH, _ => 0x61);
    AsciiIsValid(id);
    id
  }

  /** The ids of the message generator. */
  type Id = s: Str | |s| == ID_LENGTH witness SomeId()

  /**
    With ids of the length the message generator gives them, a frame decodes to what was sent if and
    only if its body is compressed or the two flags differ. As written the flags are equal, so frames
    of an uncompressing encoder never decode.
   */
  lemma FrameRoundTripExactly(from: Endpoint, to: Endpoint, cfg: Config, m: Message, random: nat, tail: seq<byte>)
    requires Peers(from, to, m.user) && Frame(from, cfg, m, random).Ok? && Representable(from, cfg, m, random)
    requires GzipMagic(to.lib) && |m.id| == ID_LENGTH
    ensures (DecodeCall(to, DirectionOf(m.payload), Head, Frame(from, cfg, m, random).value + tail)
          == Call(Item(Received(from, m, random)), Head, tail)) <==> cfg.MarksFaithfully()
    ensures !cfg.MarksFaithfully() ==>
      DecodeCall(to, DirectionOf(m.payload), Head, Frame(from, cfg, m, random).value + tail).outcome == Failed(BadCompression)
  {
    if cfg.MarksFaithfully() {
      FrameRoundTrip(from, to, cfg, m, random, tail);
    } else {
      var cm := Seal(from, m, random).value;
      SealKeepsNames(from, m, random);
      RawBodyIsNotGzip(cm);
      RawBodyRefused(to, DirectionOf(m.payload), BodyOf(from, cfg, cm));
      FrameCall(to, DirectionOf(m.payload), cfg, BodyOf(from, cfg, cm), tail);
    }
  }

  lemma RawBodyRefused(e: Endpoint, dir: Direction, body: seq<byte>)
    requires GzipMagic(e.lib) && (body == [] || body[0] != 0x1F)
    ensures OpenBody(e, dir, true, body) == Refused(BadCompression, false)
  {
    assert e.lib.gunzip(body).None?;
  }

  lemma RawBodyIsNotGzip(cm: CodecMessage)
    requires |cm.id| == ID_LENGTH
    ensures |SerCodecMessage(cm)| >= 1 && SerCodecMessage(cm)[0] == ID_LENGTH != 0x1F
  {
    assert Le(ID_LENGTH, 8)[0] == ID_LENGTH;
  }
}
