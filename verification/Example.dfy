/** A concrete tunnel that meets every hypothesis of the theorems about tunnels when both ends compress. */
module Example {
  import opened Wrappers
  import opened Octets
  import opened Utf8
  import opened Messages
  import opened Cipher = Aes
  import opened Codec
  import opened Stream
  import opened Flow
  import opened Session
  import opened TunnelOpening
  import opened TunnelMarking
  import opened Uncompressed

  const TOKEN: Token := Fill(32, 7)
  const CLIENT: Address := Ip(V4([10, 0, 0, 1], 40000))
  const SERVER: Address := Ip(V4([10, 0, 0, 2], 80))
  const REQUEST: seq<byte> := [71, 69, 84]

  /** An HTTP client's tunnel; each end compresses or not, with the flags as the code has them. */
  function Sample(agentCompresses: bool, proxyCompresses: bool): Tunnel {
    Tunnel(End(), Config(agentCompresses, UN_COMPRESS_FLAG), End(), Config(proxyCompresses, UN_COMPRESS_FLAG),
      [], TOKEN, TOKEN, TOKEN, CLIENT, SERVER, Some(REQUEST))
  }

  lemma SealedSize(plain: seq<byte>)
    ensures |Encrypted(End().lib.cipher, TOKEN, plain)| == PaddedLength(|plain|) <= |plain| + 16
  {
    EndIsLawful([]);
    DecryptedEncrypted(End().lib.cipher, TOKEN, plain);
  }

  lemma Sealed(id: Id, payload: Payload)
    ensures Seal(End(), Message(id, [], Aes(TOKEN), payload), 0)
         == Ok(CodecMessage(id, [], Aes(TOKEN), Encrypted(End().lib.cipher, TOKEN, SerPayload(payload))))
  {
    hide SerPayload, Encrypted;
  }

  lemma BodySize(id: Id, cfg: Config, sealed: seq<byte>)
    requires |sealed| < 1000
    ensures |BodyOf(End(), cfg, CodecMessage(id, [], Aes(TOKEN), sealed))| < 2000
  {
    hide Le, ValidUtf8;
  }

  lemma SmallSends(l: Link, id: Id, payload: Payload)
    requires l.from == End() && PayloadFits(payload) && |SerPayload(payload)| < 100
    ensures Sends(l, Sent(Message(id, [], Aes(TOKEN), payload), 0))
  {
    hide SerPayload, Encrypted, Seal, End, PayloadFits, BodyOf;
    var sealed := Encrypted(End().lib.cipher, TOKEN, SerPayload(payload));
    Sealed(id, payload);
    SealedSize(SerPayload(payload));
    BodySize(id, l.cfg, sealed);
  }

  lemma HandshakeIsSmall()
    ensures |SerPayload(UpTcp(AgentInit(CLIENT, SERVER)))| < 100
    ensures |SerPayload(DownTcp(ProxyInit(CLIENT, SERVER, Success([]))))| < 100
    ensures |SerPayload(UpTcp(AgentData(REQUEST)))| < 100
  {
    hide Le, ValidUtf8;
  }

  /** The hypotheses of the theorems about whole runs can be met. */
  lemma SampleConforms()
    ensures Conforming(Sample(true, true))
  {
    EndIsLawful([]);
    hide End;
  }

  /** As the code stands, this tunnel can be opened if and only if both ends compress. */
  lemma SampleOpensExactly(agentCompresses: bool, proxyCompresses: bool)
    ensures (exists actions :: Relays(Sample(agentCompresses, proxyCompresses), actions))
       <==> agentCompresses && proxyCompresses
  {
    var k, id := Sample(agentCompresses, proxyCompresses), SomeId();
    hide SerPayload, Sends, End, SomeId, Relays;
    EndIsLawful([]);
    HandshakeIsSmall();
    SmallSends(UpLink(k), id, UpTcp(AgentInit(CLIENT, SERVER)));
    SmallSends(DownLink(k), id, DownTcp(ProxyInit(CLIENT, SERVER, Success([]))));
    SmallSends(UpLink(k), id, UpTcp(AgentData(REQUEST)));
    TunnelOpensExactly(k, [], id, 0);
  }
}
