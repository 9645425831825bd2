/** The bytes on the wire, spelled out: digits, tags, frames and payloads. */
module WireFormat {
  import opened Wrappers
  import opened Octets
  import opened Messages
  import opened Cipher = Aes
  import opened Codec
  import opened Refusals

  // ----- digits -----

  lemma TwoDigits(hi: byte, lo: byte)
    ensures Be(256 * hi + lo, 2) == [hi, lo] && Le(256 * hi + lo, 2) == [lo, hi]
  {
    hide Be, Le, FromBe, FromLe;
    var none: seq<byte> := [];
    NoDigits();
    BigDigits(none, hi);
    BigDigits([hi], lo);
    LittleDigits(hi, none);
    LittleDigits(lo, [hi]);
    assert none + [hi] == [hi] == [hi] + none && [hi] + [lo] == [hi, lo] && [lo] + [hi] == [lo, hi];
  }

  lemma NoDigits()
    ensures FromBe([]) == 0 == FromLe([])
  {
  }

  /** A digit at the back is the least significant one of a big-endian number. */
  lemma BigDigits(s: seq<byte>, b: byte)
    ensures FromBe(s + [b]) == 256 * FromBe(s) + b && Be(FromBe(s + [b]), |s| + 1) == s + [b]
  {
    assert (s + [b])[..|s|] == s;
    BeUnique(s + [b]);
    hide Be;
  }

  /** A digit at the front is the least significant one of a little-endian number. */
  lemma LittleDigits(b: byte, s: seq<byte>)
    ensures FromLe([b] + s) == b + 256 * FromLe(s) && Le(FromLe([b] + s), |s| + 1) == [b] + s
  {
    hide Le;
    LeUnique([b] + s);
    LittleStep([b] + s);
  }

  lemma LittleStep(s: seq<byte>)
    requires s != []
    ensures FromLe(s) == s[0] + 256 * FromLe(s[1..])
  {
  }

  lemma Tags()
    ensures SerTag(0) == [0, 0, 0, 0] && SerTag(1) == [1, 0, 0, 0]
  {
  }

  // ----- frames -----

  /** The ten bytes every frame begins with are the ASCII text. */
  lemma FlagIsText()
    ensures |PPAASS_FLAG| == |"__PPAASS__"| == 10
    ensures forall i :: 0 <= i < 10 ==> PPAASS_FLAG[i] as char == "__PPAASS__"[i]
  {
  }

  /**
    An encoded message: ten flag bytes, 1 or the flag for uncompressed bodies, the body length, most
    significant digit first, and the body: the sealed message, compressed if the encoder compresses.
   */
  lemma FrameBytes(e: Endpoint, cfg: Config, m: Message, random: nat)
    requires Invertible(e.lib.cipher) && Frame(e, cfg, m, random).Ok?
    ensures exists cm, body: seq<byte> ::
      && IsSealed(e, m, random, cm)
      && body == (if cfg.compress then e.lib.gzip(SerCodecMessage(cm)) else SerCodecMessage(cm))
      && Frame(e, cfg, m, random).value
         == PPAASS_FLAG + [if cfg.compress then 1 else cfg.rawFlag] + Be(|body|, 8) + body
  {
    hide SerCodecMessage, IsSealed, Seal;
    SealIsSealed(e, m, random);
    var cm := Seal(e, m, random).value;
    var body := BodyOf(e, cfg, cm);
    assert IsSealed(e, m, random, cm);
  }

  /**
    Compression byte 1 means a compressed body and every other value an uncompressed one. Bytes behind the
    message in the body, and behind the payload in the message, are ignored.
   */
  lemma MarkDecides(
      e: Endpoint, dir: Direction, mark: byte, body: seq<byte>, cm: CodecMessage, payload: Payload,
      ignored: seq<byte>, alsoIgnored: seq<byte>, tail: seq<byte>)
    requires |body| < U64_LIMIT && CodecMessageFits(cm) && PayloadFits(payload) && dir == DirectionOf(payload)
    requires (if mark == 1 then e.lib.gunzip(body) else Some(body)) == Some(SerCodecMessage(cm) + ignored)
    requires e.fetch(cm.user).Keys? && cm.encryption == Plain && cm.payload == SerPayload(payload) + alsoIgnored
    ensures DecodeCall(e, dir, Head, PPAASS_FLAG + [mark] + Be(|body|, 8) + body + tail)
         == Call(Item(Message(cm.id, cm.user, Plain, NormalPayload(payload))), Head, tail)
  {
    hide OpenBody, SerCodecMessage, SerPayload, CodecMessageFits, PayloadFits, DecodeCall;
    TrailingIgnored(e, dir, mark == 1, body, cm, payload, ignored, alsoIgnored);
    FrameCall(e, dir, Config(false, mark), body, tail);
    assert FrameOf(Config(false, mark), body) == PPAASS_FLAG + [mark] + Be(|body|, 8) + body;
  }

  lemma TrailingIgnored(
      e: Endpoint, dir: Direction, compressed: bool, body: seq<byte>, cm: CodecMessage, payload: Payload,
      ignored: seq<byte>, alsoIgnored: seq<byte>)
    requires CodecMessageFits(cm) && PayloadFits(payload) && dir == DirectionOf(payload)
    requires Unpacked(e, compressed, body) == Some(SerCodecMessage(cm) + ignored)
    requires e.fetch(cm.user).Keys? && cm.encryption == Plain && cm.payload == SerPayload(payload) + alsoIgnored
    ensures OpenBody(e, dir, compressed, body) == Opened(Message(cm.id, cm.user, Plain, NormalPayload(payload)))
  {
    hide OpenBody, SerCodecMessage, SerPayload, DeCodecMessage, DePayload, CodecMessageFits, PayloadFits;
    CodecMessageRoundTrip(cm, ignored);
    PayloadRoundTrip(payload, alsoIgnored);
    PlainOpens(e, dir, compressed, body, cm);
  }

  // ----- messages -----

  /** Byte strings and texts: their length as a little-endian 64-bit number, then the bytes. */
  lemma SizedBytes(b: seq<byte>)
    requires |b| < U64_LIMIT
    ensures |SerBytes(b)| == 8 + |b| && SerBytes(b)[8..] == b && FromLe(SerBytes(b)[..8]) == |b|
  {
    Pow256Values();
    LeRoundTrip(|b|, 8);
    hide Le, FromLe;
    assert SerBytes(b)[..8] == Le(|b|, 8);
  }

  lemma AddressBytes(a: Address)
    ensures SerAddress(a) ==
      match a
      case Ip(V4(ip, port)) => [0, 0, 0, 0] + [0, 0, 0, 0] + ip + [port % 256, port / 256]
      case Ip(V6(ip, port, _, _)) => [0, 0, 0, 0] + [1, 0, 0, 0] + ip + [port % 256, port / 256]
      case Domain(host, port) => [1, 0, 0, 0] + SerBytes(host) + [port % 256, port / 256]
  {
    hide Le;
    var port := match a case Ip(V4(_, p)) => p case Ip(V6(_, p, _, _)) => p case Domain(_, p) => p;
    TwoDigits(port / 256, port % 256);
    assert SerTag(0) == [0, 0, 0, 0] && SerTag(1) == [1, 0, 0, 0] by {
      Tags();
    }
  }

  /** Tags in declaration order, fields in declaration order: the payload of every kind of message. */
  lemma PayloadBytes(p: Payload)
    ensures SerPayload(p) ==
      match p
      case UpTcp(AgentInit(src, dst)) => [0, 0, 0, 0] + ([0, 0, 0, 0] + (SerAddress(src) + SerAddress(dst)))
      case UpTcp(AgentData(content)) => [0, 0, 0, 0] + ([1, 0, 0, 0] + SerBytes(content))
      case UpUdp(AgentUdp(src, dst, data, need)) =>
        [1, 0, 0, 0] + ((SerAddress(src) + SerAddress(dst)) + (SerBytes(data) + [if need then 1 else 0]))
      case DownTcp(ProxyInit(src, dst, Success(id))) =>
        [0, 0, 0, 0] + ([0, 0, 0, 0] + ((SerAddress(src) + SerAddress(dst)) + ([0, 0, 0, 0] + SerBytes(id))))
      case DownTcp(ProxyInit(src, dst, Fail(CanNotConnect))) =>
        [0, 0, 0, 0] + ([0, 0, 0, 0] + ((SerAddress(src) + SerAddress(dst)) + ([1, 0, 0, 0] + [0, 0, 0, 0])))
      case DownTcp(ProxyInit(src, dst, Fail(General))) =>
        [0, 0, 0, 0] + ([0, 0, 0, 0] + ((SerAddress(src) + SerAddress(dst)) + ([1, 0, 0, 0] + [1, 0, 0, 0])))
      case DownTcp(ProxyData(content)) => [0, 0, 0, 0] + ([1, 0, 0, 0] + SerBytes(content))
      case DownUdp(ProxyUdp(src, dst, data)) => [1, 0, 0, 0] + ((SerAddress(src) + SerAddress(dst)) + SerBytes(data))
  {
    hide Le, SerAddress, SerTag, SerBytes;
    Tags();
  }

  /** Id, user, encryption, payload. */
  lemma MessageBytes(m: CodecMessage)
    ensures SerCodecMessage(m)
         == SerBytes(m.id) + (SerBytes(m.user)
            + ((if m.encryption.Plain? then [0, 0, 0, 0] else [1, 0, 0, 0] + SerBytes(m.encryption.token)) + SerBytes(m.payload)))
  {
    hide Le, SerTag, SerBytes;
    Tags();
  }
}
