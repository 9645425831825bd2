/**
  With `UN_COMPRESS_FLAG` equal to `COMPRESS_FLAG`, an encoder that does not compress marks its frames as
  compressed. One concrete message between two concrete endpoints shows the round trip failing.
 */
module Uncompressed {
  import opened Wrappers
  import opened Octets
  import opened Utf8
  import opened Messages
  import opened Cipher = Aes
  import opened Codec

  /** The settings of the code as it stands, without compression. */
  const RAW: Config := Config(false, UN_COMPRESS_FLAG)

  function Pack(b: seq<byte>): seq<byte> {
    [0x1F, 0x8B] + b
  }

  function Unpack(b: seq<byte>): Option<seq<byte>> {
    if |b| >= 2 && b[0] == 0x1F && b[1] == 0x8B then Some(b[2..]) else None
  }

  function Block(key: seq<byte>, block: seq<byte>): seq<byte> {
    block
  }

  function Wrap(token: seq<byte>, random: nat): Option<seq<byte>> {
    Some(token)
  }

  function Unwrap(token: seq<byte>): Option<seq<byte>> {
    Some(token)
  }

  function Everyone(user: Str): Fetched {
    Keys(Rsa(Wrap, Unwrap))
  }

  function End(): Endpoint {
    Endpoint(Library(Pack, Unpack, BlockCipher(Block, Block)), Everyone)
  }

  function Sample(): Message {
    Message(SomeId(), [], Plain, UpTcp(AgentData([])))
  }

  lemma EndIsLawful(user: Str)
    ensures Peers(End(), End(), user) && GzipMagic(End().lib)
  {
    forall b ensures Unpack(Pack(b)) == Some(b) {
      assert Pack(b)[2..] == b;
    }
  }

  lemma SmallBody(cm: CodecMessage)
    requires |cm.id| == ID_LENGTH && cm.user == [] && cm.encryption == Plain && |cm.payload| == 16
    ensures |SerCodecMessage(cm)| == 80
  {
  }

  lemma SampleIsSmall()
    ensures Representable(End(), RAW, Sample(), 0) && Frame(End(), RAW, Sample(), 0).Ok? && |Sample().id| == ID_LENGTH
    ensures DirectionOf(Sample().payload) == Up
  {
    hide SomeId, Pack, Unpack, ValidUtf8;
    var m, payload := Sample(), SerPayload(Sample().payload);
    assert |payload| == 16;
    var cm := CodecMessage(m.id, m.user, Plain, payload);
    assert Seal(End(), m, 0) == Ok(cm);
    SmallBody(cm);
  }

  /** The sample message encodes, and its frame does not decode. */
  lemma RawFrameFails()
    ensures Frame(End(), RAW, Sample(), 0).Ok?
    ensures DecodeCall(End(), Up, Head, Frame(End(), RAW, Sample(), 0).value + []).outcome == Failed(BadCompression)
  {
    SampleIsSmall();
    EndIsLawful(Sample().user);
    hide Frame, Representable, Peers, DecodeCall, Received, GzipMagic, Sample, End;
    FrameRoundTripExactly(End(), End(), RAW, Sample(), 0, []);
  }
}
