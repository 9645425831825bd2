/** What the codec accepts and refuses: for every body, call and message, which outcome and which error. */
module Refusals {
  import opened Wrappers
  import opened Octets
  import opened Messages
  import opened Cipher = Aes
  import opened Codec

  /** The bytes of a body once decompression, where the frame asks for it, is undone. */
  function Unpacked(e: Endpoint, compressed: bool, body: seq<byte>): Option<seq<byte>> {
    if compressed then e.lib.gunzip(body) else Some(body)
  }

  /** The body can be read as `cm`, with any bytes behind it. */
  predicate ReadsAs(e: Endpoint, compressed: bool, body: seq<byte>, cm: CodecMessage) {
    var raw := Unpacked(e, compressed, body);
    raw.Some? && DeCodecMessage(raw.value).Some? && DeCodecMessage(raw.value).value.0 == cm
  }

  // ----- keys -----

  /** Under both encryptions, a readable body is refused when its user's keys can not be fetched or do not exist. */
  lemma KeylessRefused(e: Endpoint, dir: Direction, compressed: bool, body: seq<byte>, cm: CodecMessage)
    requires ReadsAs(e, compressed, body, cm)
    ensures e.fetch(cm.user) == FetchFailed ==> OpenBody(e, dir, compressed, body) == Refused(RsaFetch, false)
    ensures e.fetch(cm.user) == NoKeys ==> OpenBody(e, dir, compressed, body) == Refused(RsaNotFound(cm.user), false)
  {
    hide DeCodecMessage, DePayload, Decrypted;
  }

  lemma OpenedHasKeys(e: Endpoint, dir: Direction, compressed: bool, body: seq<byte>)
    ensures var r := OpenBody(e, dir, compressed, body); r.Opened? ==> e.fetch(r.message.user).Keys?
  {
    hide DeCodecMessage, DePayload, Decrypted;
  }

  /** No call of the decoder returns a message of a user without keys. */
  lemma DecodedHasKeys(e: Endpoint, dir: Direction, status: Status, buffer: seq<byte>)
    ensures var c := DecodeCall(e, dir, status, buffer);
      c.outcome.Item? ==> e.fetch(c.outcome.message.user).Keys?
  {
    hide OpenBody;
    match status
    case Data(compressed, length) =>
      if |buffer| >= length {
        OpenedHasKeys(e, dir, compressed, buffer[..length]);
      }
    case Head =>
      if |buffer| >= HEADER_LENGTH {
        var rest := buffer[HEADER_LENGTH..];
        if |rest| >= HeaderLength(buffer) {
          OpenedHasKeys(e, dir, buffer[FLAG_LENGTH] == 1, rest[..HeaderLength(buffer)]);
        }
      }
  }

  /**
    A message is encoded if and only if its user has keys and, for `Aes`, its token can be wrapped and has 32
    bytes; every other message fails with the first error in this order.
   */
  lemma FrameExactly(e: Endpoint, cfg: Config, m: Message, random: nat)
    ensures var r := Frame(e, cfg, m, random);
      match e.fetch(m.user)
      case FetchFailed => r == Err(RsaFetch)
      case NoKeys => r == Err(RsaNotFound(m.user))
      case Keys(rsa) =>
        match m.encryption
        case Plain => r.Ok?
        case Aes(token) =>
          && (rsa.encrypt(token, random).None? <==> r == Err(RsaFailure))
          && (rsa.encrypt(token, random).Some? && |token| != 32 <==> r == Err(AesFailure(BadKeyLength)))
          && (rsa.encrypt(token, random).Some? && |token| == 32 <==> r.Ok?)
  {
    hide SerPayload, SerCodecMessage, Encrypted, FrameOf;
  }

  // ----- what a body says -----

  /** The serialized payload, which may have bytes behind it, decides the outcome. */
  predicate Delivers(dir: Direction, cm: CodecMessage, plain: seq<byte>, r: Opened) {
    match DePayload(dir, plain)
    case Some((payload, _)) => r == Opened(Message(cm.id, cm.user, cm.encryption, payload))
    case None => r == Refused(BadPayload, true)
  }

  /** A body is unreadable if and only if it does not decompress, or is no serialized message. */
  lemma UnreadableExactly(e: Endpoint, dir: Direction, compressed: bool, body: seq<byte>)
    ensures var r := OpenBody(e, dir, compressed, body);
      && (r == Refused(BadCompression, false) <==> compressed && e.lib.gunzip(body).None?)
      && (r == Refused(BadMessage, false) <==> !(compressed && e.lib.gunzip(body).None?) && !exists cm :: ReadsAs(e, compressed, body, cm))
  {
    hide DePayload, Decrypted, DeCodecMessage;
    var raw := Unpacked(e, compressed, body);
    if raw.Some? && DeCodecMessage(raw.value).Some? {
      var cm := DeCodecMessage(raw.value).value.0;
      assert ReadsAs(e, compressed, body, cm);
      UnsealErrors(e, cm);
      NotUnreadable(e, cm);
    }
  }

  lemma NotUnreadable(e: Endpoint, cm: CodecMessage)
    ensures var r := Unseal(e, cm); r.Err? ==> r.error != BadCompression && r.error != BadMessage
  {
    hide Decrypted;
  }

  /** A readable Plain body of a user with keys delivers the payload it carries as it is. */
  lemma PlainOpens(e: Endpoint, dir: Direction, compressed: bool, body: seq<byte>, cm: CodecMessage)
    requires ReadsAs(e, compressed, body, cm) && e.fetch(cm.user).Keys? && cm.encryption.Plain?
    ensures Delivers(dir, cm, cm.payload, OpenBody(e, dir, compressed, body))
  {
    hide DeCodecMessage, DePayload, Decrypted;
  }

  /**
    A readable `Aes` body of a user with keys: it fails when the token does not unwrap, or has not 32 bytes,
    or the payload is the ciphertext of nothing under it; otherwise it delivers what the ciphertext is of.
   */
  lemma AesOpens(e: Endpoint, dir: Direction, compressed: bool, body: seq<byte>, cm: CodecMessage)
    requires ReadsAs(e, compressed, body, cm) && e.fetch(cm.user).Keys? && cm.encryption.Aes?
    requires Invertible(e.lib.cipher)
    ensures var r, token := OpenBody(e, dir, compressed, body), e.fetch(cm.user).rsa.decrypt(cm.encryption.token);
      && (token.None? ==> r == Refused(RsaFailure, false))
      && (token.Some? && |token.value| != 32 ==> r == Refused(AesFailure(BadKeyLength), false))
      && (token.Some? && |token.value| == 32 ==>
            && ((forall plain :: Encrypted(e.lib.cipher, token.value, plain) != cm.payload) ==>
                  r == Refused(AesFailure(BadPadding), false))
            && (forall plain | Encrypted(e.lib.cipher, token.value, plain) == cm.payload :: Delivers(dir, cm, plain, r)))
  {
    var token := e.fetch(cm.user).rsa.decrypt(cm.encryption.token);
    AesOpensAs(e, dir, compressed, body, cm);
    hide OpenBody, ReadsAs, Delivers, Decrypted, Encrypted, Invertible;
    if token.Some? && |token.value| == 32 {
      var d := Decrypted(e.lib.cipher, token.value, cm.payload);
      if d.Some? {
        EncryptedDecrypted(e.lib.cipher, token.value, cm.payload);
      }
      forall plain | Encrypted(e.lib.cipher, token.value, plain) == cm.payload ensures d == Some(plain) {
        DecryptedEncrypted(e.lib.cipher, token.value, plain);
      }
    }
  }

  lemma AesOpensAs(e: Endpoint, dir: Direction, compressed: bool, body: seq<byte>, cm: CodecMessage)
    requires ReadsAs(e, compressed, body, cm) && e.fetch(cm.user).Keys? && cm.encryption.Aes?
    ensures var r := OpenBody(e, dir, compressed, body);
      match e.fetch(cm.user).rsa.decrypt(cm.encryption.token)
      case None => r == Refused(RsaFailure, false)
      case Some(token) =>
        if |token| != 32 then r == Refused(AesFailure(BadKeyLength), false) else
        match Decrypted(e.lib.cipher, token, cm.payload)
        case None => r == Refused(AesFailure(BadPadding), false)
        case Some(plain) => Delivers(dir, cm, plain, r)
  {
    hide DeCodecMessage, DePayload, Decrypted;
  }

  // ----- what a failed call leaves -----

  /**
    A wrong flag takes 10 bytes; every other failure takes exactly the whole frame, and the status left is
    `Head`, or what its header said.
   */
  lemma FailureTakes(e: Endpoint, dir: Direction, status: Status, buffer: seq<byte>)
    ensures var c := DecodeCall(e, dir, status, buffer);
      && (c.outcome == Failed(InvalidMessageFlag) <==> status.Head? && |buffer| >= 19 && buffer[..10] != PPAASS_FLAG)
      && (c.outcome == Failed(InvalidMessageFlag) ==> c.status == Head && c.buffer == buffer[10..])
      && (c.outcome.Failed? && c.outcome.error != InvalidMessageFlag ==>
            && FrameEnd(status, buffer) <= |buffer| && c.buffer == buffer[FrameEnd(status, buffer)..]
            && c.status == if c.outcome.error == BadPayload then Head
                           else if status.Data? then status else Data(buffer[10] == 1, HeaderLength(buffer)))
  {
    hide OpenBody;
    match status
    case Data(compressed, length) =>
      if |buffer| >= length {
        RefusalAtHead(e, dir, compressed, buffer[..length]);
      }
    case Head =>
      if |buffer| >= HEADER_LENGTH {
        var rest := buffer[HEADER_LENGTH..];
        if |rest| >= HeaderLength(buffer) {
          RefusalAtHead(e, dir, buffer[FLAG_LENGTH] == 1, rest[..HeaderLength(buffer)]);
          assert rest[HeaderLength(buffer)..] == buffer[HEADER_LENGTH + HeaderLength(buffer)..];
        }
      }
  }

  // ----- what a sealed message is -----

  /** The sealed form keeps the names; the token is wrapped for the user and the payload is enciphered with it. */
  ghost predicate IsSealed(e: Endpoint, m: Message, random: nat, cm: CodecMessage) {
    && cm.id == m.id && cm.user == m.user && e.fetch(m.user).Keys?
    && match m.encryption
       case Plain => cm.encryption == Plain && cm.payload == SerPayload(m.payload)
       case Aes(token) =>
         && cm.encryption.Aes?
         && e.fetch(m.user).rsa.encrypt(token, random) == Some(cm.encryption.token)
         && Enciphers(e.lib.cipher, token, SerPayload(m.payload), cm.payload)
  }

  lemma SealIsSealed(e: Endpoint, m: Message, random: nat)
    requires Invertible(e.lib.cipher) && Seal(e, m, random).Ok?
    ensures IsSealed(e, m, random, Seal(e, m, random).value)
  {
    hide SerPayload, Encrypted, Enciphers;
    if m.encryption.Aes? {
      EncryptedEnciphers(e.lib.cipher, m.encryption.token, SerPayload(m.payload));
    }
  }
}
