/**
  The messages the agent and the proxy exchange, and their serialized form: fixed-width
  little-endian integers, 64-bit lengths, 32-bit variant tags in declaration order, fields in
  declaration order. Every reader returns the value and the bytes that follow it.
 */
module Messages {
  import opened Wrappers
  import opened Octets
  import opened Utf8

  type Octets4 = s: seq<byte> | |s| == 4 witness [0, 0, 0, 0]
  type Octets16 = s: seq<byte> | |s| == 16 witness [0, 0, 0, 0, 0, 0, 0, 0, 0, 0, 0, 0, 0, 0, 0, 0]

  datatype SocketAddr =
    | V4(ip4: Octets4, port4: u16)
    | V6(ip6: Octets16, port6: u16, flowInfo: u32, scopeId: u32)

  /** Where a connection or a datagram comes from or goes to. */
  datatype Address = Ip(socket: SocketAddr) | Domain(host: Str, port: u16)

  datatype Encryption = Plain | Aes(token: seq<byte>)

  datatype AgentTcp = AgentInit(src: Address, dst: Address) | AgentData(content: seq<byte>)

  datatype FailureReason = CanNotConnect | General

  datatype InitResult = Success(tunnelId: Str) | Fail(reason: FailureReason)

  datatype ProxyTcp =
    | ProxyInit(src: Address, dst: Address, result: InitResult)
    | ProxyData(content: seq<byte>)

  datatype AgentUdp = AgentUdp(src: Address, dst: Address, data: seq<byte>, needResponse: bool)

  datatype ProxyUdp = ProxyUdp(src: Address, dst: Address, data: seq<byte>)

  /** `Up` payloads travel from agent to proxy, `Down` payloads from proxy to agent. */
  datatype Payload =
    | UpTcp(upTcp: AgentTcp)
    | UpUdp(upUdp: AgentUdp)
    | DownTcp(downTcp: ProxyTcp)
    | DownUdp(downUdp: ProxyUdp)

  datatype Direction = Up | Down

  function DirectionOf(p: Payload): Direction {
    if p.UpTcp? || p.UpUdp? then Up else Down
  }

  /** A message as the relays see it. */
  datatype Message = Message(id: Str, user: Str, encryption: Encryption, payload: Payload)

  /** A message as it is serialized: the payload is already serialized and sealed. */
  datatype CodecMessage = CodecMessage(id: Str, user: Str, encryption: Encryption, payload: seq<byte>)

  // ----- what serialization keeps of a value -----

  /** The serialized form of a V6 address has neither flow information nor scope. */
  function NormalSocket(a: SocketAddr): SocketAddr {
    if a.V6? then a.(flowInfo := 0, scopeId := 0) else a
  }

  function Normal(a: Address): Address {
    if a.Ip? then Ip(NormalSocket(a.socket)) else a
  }

  function NormalPayload(p: Payload): Payload {
    match p
    case UpTcp(AgentInit(s, d)) => UpTcp(AgentInit(Normal(s), Normal(d)))
    case UpTcp(AgentData(_)) => p
    case UpUdp(AgentUdp(s, d, x, n)) => UpUdp(AgentUdp(Normal(s), Normal(d), x, n))
    case DownTcp(ProxyInit(s, d, r)) => DownTcp(ProxyInit(Normal(s), Normal(d), r))
    case DownTcp(ProxyData(_)) => p
    case DownUdp(ProxyUdp(s, d, x)) => DownUdp(ProxyUdp(Normal(s), Normal(d), x))
  }

  // ----- what a 64-bit length can describe -----

  predicate AddressFits(a: Address) {
    a.Domain? ==> |a.host| < U64_LIMIT
  }

  predicate EncryptionFits(e: Encryption) {
    e.Aes? ==> |e.token| < U64_LIMIT
  }

  predicate ResultFits(r: InitResult) {
    r.Success? ==> |r.tunnelId| < U64_LIMIT
  }

  predicate PayloadFits(p: Payload) {
    match p
    case UpTcp(AgentInit(s, d)) => AddressFits(s) && AddressFits(d)
    case UpTcp(AgentData(c)) => |c| < U64_LIMIT
    case UpUdp(AgentUdp(s, d, x, _)) => AddressFits(s) && AddressFits(d) && |x| < U64_LIMIT
    case DownTcp(ProxyInit(s, d, r)) => AddressFits(s) && AddressFits(d) && ResultFits(r)
    case DownTcp(ProxyData(c)) => |c| < U64_LIMIT
    case DownUdp(ProxyUdp(s, d, x)) => AddressFits(s) && AddressFits(d) && |x| < U64_LIMIT
  }

  predicate CodecMessageFits(m: CodecMessage) {
    |m.id| < U64_LIMIT && |m.user| < U64_LIMIT && EncryptionFits(m.encryption) && |m.payload| < U64_LIMIT
  }

  // ----- writers -----

  function SerBytes(b: seq<byte>): seq<byte> {
    Le(|b|, 8) + b
  }

  function SerTag(tag: u32): seq<byte> {
    Le(tag, 4)
  }

  function SerSocket(a: SocketAddr): seq<byte> {
    match a
    case V4(ip, port) => SerTag(0) + (ip + Le(port, 2))
    case V6(ip, port, _, _) => SerTag(1) + (ip + Le(port, 2))
  }

  function SerAddress(a: Address): seq<byte> {
    match a
    case Ip(socket) => SerTag(0) + SerSocket(socket)
    case Domain(host, port) => SerTag(1) + (SerBytes(host) + Le(port, 2))
  }

  /** The source and destination addresses most payloads begin with. */
  function SerRoute(src: Address, dst: Address): seq<byte> {
    SerAddress(src) + SerAddress(dst)
  }

  function SerBool(b: bool): seq<byte> {
    [if b then 1 else 0]
  }

  function SerEncryption(e: Encryption): seq<byte> {
    match e
    case Plain => SerTag(0)
    case Aes(token) => SerTag(1) + SerBytes(token)
  }

  function SerResult(r: InitResult): seq<byte> {
    match r
    case Success(tunnelId) => SerTag(0) + SerBytes(tunnelId)
    case Fail(reason) => SerTag(1) + SerTag(if reason.CanNotConnect? then 0 else 1)
  }

  function SerAgentTcp(p: AgentTcp): seq<byte> {
    match p
    case AgentInit(src, dst) => SerTag(0) + SerRoute(src, dst)
    case AgentData(content) => SerTag(1) + SerBytes(content)
  }

  function SerProxyTcp(p: ProxyTcp): seq<byte> {
    match p
    case ProxyInit(src, dst, result) => SerTag(0) + (SerRoute(src, dst) + SerResult(result))
    case ProxyData(content) => SerTag(1) + SerBytes(content)
  }

  function SerAgentUdp(p: AgentUdp): seq<byte> {
    SerRoute(p.src, p.dst) + (SerBytes(p.data) + SerBool(p.needResponse))
  }

  function SerProxyUdp(p: ProxyUdp): seq<byte> {
    SerRoute(p.src, p.dst) + SerBytes(p.data)
  }

  function SerPayload(p: Payload): seq<byte> {
    match p
    case UpTcp(t) => SerTag(0) + SerAgentTcp(t)
    case UpUdp(u) => SerTag(1) + SerAgentUdp(u)
    case DownTcp(t) => SerTag(0) + SerProxyTcp(t)
    case DownUdp(u) => SerTag(1) + SerProxyUdp(u)
  }

  function SerCodecMessage(m: CodecMessage): seq<byte> {
    SerBytes(m.id) + (SerBytes(m.user) + (SerEncryption(m.encryption) + SerBytes(m.payload)))
  }

  // ----- readers -----

  type Read<T> = Option<(T, seq<byte>)>

  function DeUint(s: seq<byte>, width: nat): Read<nat> {
    if |s| < width then None else Some((FromLe(s[..width]), s[width..]))
  }

  function DeU16(s: seq<byte>): Read<u16> {
    var (n, rest) :- DeUint(s, 2);
    if n < 0x1_0000 then Some((n, rest)) else None
  }

  function DeBytes(s: seq<byte>): Read<seq<byte>> {
    var (n, rest) :- DeUint(s, 8);
    if |rest| < n then None else Some((rest[..n], rest[n..]))
  }

  function DeString(s: seq<byte>): Read<Str> {
    var (b, rest) :- DeBytes(s);
    if ValidUtf8(b) then Some((b, rest)) else None
  }

  function DeBool(s: seq<byte>): Read<bool> {
    if s == [] || s[0] > 1 then None else Some((s[0] == 1, s[1..]))
  }

  function DeSocket(s: seq<byte>): Read<SocketAddr> {
    var (tag, s1) :- DeUint(s, 4);
    var width := if tag == 0 then 4 else 16;
    if tag > 1 || |s1| < width then None else
    var (port, s2) :- DeU16(s1[width..]);
    Some((if tag == 0 then V4(s1[..4], port) else V6(s1[..16], port, 0, 0), s2))
  }

  function DeAddress(s: seq<byte>): Read<Address> {
    var (tag, s1) :- DeUint(s, 4);
    if tag == 0 then
      var (socket, s2) :- DeSocket(s1);
      Some((Ip(socket), s2))
    else if tag == 1 then
      var (host, s2) :- DeString(s1);
      var (port, s3) :- DeU16(s2);
      Some((Domain(host, port), s3))
    else None
  }

  function DeRoute(s: seq<byte>): Read<(Address, Address)> {
    var (src, s1) :- DeAddress(s);
    var (dst, s2) :- DeAddress(s1);
    Some(((src, dst), s2))
  }

  function DeEncryption(s: seq<byte>): Read<Encryption> {
    var (tag, s1) :- DeUint(s, 4);
    if tag == 0 then Some((Plain, s1))
    else if tag == 1 then
      var (token, s2) :- DeBytes(s1);
      Some((Aes(token), s2))
    else None
  }

  function DeResult(s: seq<byte>): Read<InitResult> {
    var (tag, s1) :- DeUint(s, 4);
    if tag == 0 then
      var (tunnelId, s2) :- DeString(s1);
      Some((Success(tunnelId), s2))
    else if tag == 1 then
      var (reason, s2) :- DeUint(s1, 4);
      if reason == 0 then Some((Fail(CanNotConnect), s2))
      else if reason == 1 then Some((Fail(General), s2))
      else None
    else None
  }

  function DeAgentTcp(s: seq<byte>): Read<AgentTcp> {
    var (tag, s1) :- DeUint(s, 4);
    if tag == 0 then
      var ((src, dst), s2) :- DeRoute(s1);
      Some((AgentInit(src, dst), s2))
    else if tag == 1 then
      var (content, s2) :- DeBytes(s1);
      Some((AgentData(content), s2))
    else None
  }

  function DeProxyTcp(s: seq<byte>): Read<ProxyTcp> {
    var (tag, s1) :- DeUint(s, 4);
    if tag == 0 then
      var ((src, dst), s2) :- DeRoute(s1);
      var (result, s3) :- DeResult(s2);
      Some((ProxyInit(src, dst, result), s3))
    else if tag == 1 then
      var (content, s2) :- DeBytes(s1);
      Some((ProxyData(content), s2))
    else None
  }

  function DeAgentUdp(s: seq<byte>): Read<AgentUdp> {
    var ((src, dst), s1) :- DeRoute(s);
    var (data, s2) :- DeBytes(s1);
    var (needResponse, s3) :- DeBool(s2);
    Some((AgentUdp(src, dst, data, needResponse), s3))
  }

  function DeProxyUdp(s: seq<byte>): Read<ProxyUdp> {
    var ((src, dst), s1) :- DeRoute(s);
    var (data, s2) :- DeBytes(s1);
    Some((ProxyUdp(src, dst, data), s2))
  }

  function DePayload(dir: Direction, s: seq<byte>): Read<Payload> {
    var (tag, s1) :- DeUint(s, 4);
    match (dir, tag)
    case (Up, 0) => var (t, s2) :- DeAgentTcp(s1); Some((UpTcp(t), s2))
    case (Up, 1) => var (u, s2) :- DeAgentUdp(s1); Some((UpUdp(u), s2))
    case (Down, 0) => var (t, s2) :- DeProxyTcp(s1); Some((DownTcp(t), s2))
    case (Down, 1) => var (u, s2) :- DeProxyUdp(s1); Some((DownUdp(u), s2))
    case _ => None
  }

  function DeCodecMessage(s: seq<byte>): Read<CodecMessage> {
    var (id, s1) :- DeString(s);
    var (user, s2) :- DeString(s1);
    var (encryption, s3) :- DeEncryption(s2);
    var (payload, s4) :- DeBytes(s3);
    Some((CodecMessage(id, user, encryption, payload), s4))
  }

  // ----- reading back what was written, whatever follows it -----

  lemma UintRoundTrip(n: nat, width: nat, tail: seq<byte>)
    requires n < Pow256(width)
    ensures DeUint(Le(n, width) + tail, width) == Some((n, tail))
  {
    LeRoundTrip(n, width);
    assert (Le(n, width) + tail)[..width] == Le(n, width);
  }

  lemma TagRoundTrip(tag: u32, rest: seq<byte>, tail: seq<byte>)
    ensures DeUint(SerTag(tag) + rest + tail, 4) == Some((tag, rest + tail))
  {
    Pow256Values();
    UintRoundTrip(tag, 4, rest + tail);
    Assoc(SerTag(tag), rest, tail);
  }

  lemma U16RoundTrip(n: u16, tail: seq<byte>)
    ensures DeU16(Le(n, 2) + tail) == Some((n, tail))
  {
    Pow256Values();
    UintRoundTrip(n, 2, tail);
  }

  lemma BytesRoundTrip(b: seq<byte>, tail: seq<byte>)
    requires |b| < U64_LIMIT
    ensures DeBytes(SerBytes(b) + tail) == Some((b, tail))
  {
    Pow256Values();
    UintRoundTrip(|b|, 8, b + tail);
    Assoc(Le(|b|, 8), b, tail);
  }

  lemma StringRoundTrip(b: Str, tail: seq<byte>)
    requires |b| < U64_LIMIT
    ensures DeString(SerBytes(b) + tail) == Some((b, tail))
  {
    BytesRoundTrip(b, tail);
  }

  lemma SocketRoundTrip(a: SocketAddr, tail: seq<byte>)
    ensures DeSocket(SerSocket(a) + tail) == Some((NormalSocket(a), tail))
  {
    var (tag, ip, port) := match a case V4(ip, port) => (0, ip, port) case V6(ip, port, _, _) => (1, ip, port);
    TagRoundTrip(tag, ip + Le(port, 2), tail);
    U16RoundTrip(port, tail);
    var s1 := ip + Le(port, 2) + tail;
    assert s1[..|ip|] == ip && s1[|ip|..] == Le(port, 2) + tail;
  }

  lemma AddressRoundTrip(a: Address, tail: seq<byte>)
    requires AddressFits(a)
    ensures DeAddress(SerAddress(a) + tail) == Some((Normal(a), tail))
  {
    match a
    case Ip(socket) =>
      TagRoundTrip(0, SerSocket(socket), tail);
      SocketRoundTrip(socket, tail);
    case Domain(host, port) =>
      TagRoundTrip(1, SerBytes(host) + Le(port, 2), tail);
      Assoc(SerBytes(host), Le(port, 2), tail);
      StringRoundTrip(host, Le(port, 2) + tail);
      U16RoundTrip(port, tail);
  }

  lemma RouteRoundTrip(src: Address, dst: Address, tail: seq<byte>)
    requires AddressFits(src) && AddressFits(dst)
    ensures DeRoute(SerRoute(src, dst) + tail) == Some(((Normal(src), Normal(dst)), tail))
  {
    Assoc(SerAddress(src), SerAddress(dst), tail);
    AddressRoundTrip(src, SerAddress(dst) + tail);
    AddressRoundTrip(dst, tail);
  }

  lemma EncryptionRoundTrip(e: Encryption, tail: seq<byte>)
    requires EncryptionFits(e)
    ensures DeEncryption(SerEncryption(e) + tail) == Some((e, tail))
  {
    match e
    case Plain =>
      TagRoundTrip(0, [], tail);
      assert SerTag(0) + [] == SerTag(0) && [] + tail == tail;
    case Aes(token) =>
      TagRoundTrip(1, SerBytes(token), tail);
      BytesRoundTrip(token, tail);
  }

  lemma ResultRoundTrip(r: InitResult, tail: seq<byte>)
    requires ResultFits(r)
    ensures DeResult(SerResult(r) + tail) == Some((r, tail))
  {
    match r
    case Success(tunnelId) =>
      TagRoundTrip(0, SerBytes(tunnelId), tail);
      StringRoundTrip(tunnelId, tail);
    case Fail(reason) =>
      var code := if reason.CanNotConnect? then 0 else 1;
      TagRoundTrip(1, SerTag(code), tail);
      Pow256Values();
      UintRoundTrip(code, 4, tail);
  }

  lemma AgentTcpRoundTrip(t: AgentTcp, tail: seq<byte>)
    requires PayloadFits(UpTcp(t))
    ensures DeAgentTcp(SerAgentTcp(t) + tail) == Some((NormalPayload(UpTcp(t)).upTcp, tail))
  {
    match t
    case AgentInit(src, dst) =>
      TagRoundTrip(0, SerRoute(src, dst), tail);
      RouteRoundTrip(src, dst, tail);
    case AgentData(content) =>
      TagRoundTrip(1, SerBytes(content), tail);
      BytesRoundTrip(content, tail);
  }

  lemma ProxyTcpRoundTrip(t: ProxyTcp, tail: seq<byte>)
    requires PayloadFits(DownTcp(t))
    ensures DeProxyTcp(SerProxyTcp(t) + tail) == Some((NormalPayload(DownTcp(t)).downTcp, tail))
  {
    match t
    case ProxyInit(src, dst, result) =>
      TagRoundTrip(0, SerRoute(src, dst) + SerResult(result), tail);
      Assoc(SerRoute(src, dst), SerResult(result), tail);
      RouteRoundTrip(src, dst, SerResult(result) + tail);
      ResultRoundTrip(result, tail);
    case ProxyData(content) =>
      TagRoundTrip(1, SerBytes(content), tail);
      BytesRoundTrip(content, tail);
  }

  lemma AgentUdpRoundTrip(u: AgentUdp, tail: seq<byte>)
    requires PayloadFits(UpUdp(u))
    ensures DeAgentUdp(SerAgentUdp(u) + tail) == Some((NormalPayload(UpUdp(u)).upUdp, tail))
  {
    var flag := SerBool(u.needResponse);
    Assoc(SerRoute(u.src, u.dst), SerBytes(u.data) + flag, tail);
    RouteRoundTrip(u.src, u.dst, SerBytes(u.data) + flag + tail);
    Assoc(SerBytes(u.data), flag, tail);
    BytesRoundTrip(u.data, flag + tail);
    assert (flag + tail)[1..] == tail;
  }

  lemma ProxyUdpRoundTrip(u: ProxyUdp, tail: seq<byte>)
    requires PayloadFits(DownUdp(u))
    ensures DeProxyUdp(SerProxyUdp(u) + tail) == Some((NormalPayload(DownUdp(u)).downUdp, tail))
  {
    Assoc(SerRoute(u.src, u.dst), SerBytes(u.data), tail);
    RouteRoundTrip(u.src, u.dst, SerBytes(u.data) + tail);
    BytesRoundTrip(u.data, tail);
  }

  /** Every payload reads back as itself, up to the V6 fields that are not serialized. */
  lemma PayloadRoundTrip(p: Payload, tail: seq<byte>)
    requires PayloadFits(p)
    ensures DePayload(DirectionOf(p), SerPayload(p) + tail) == Some((NormalPayload(p), tail))
  {
    match p
    case UpTcp(t) => TagRoundTrip(0, SerAgentTcp(t), tail); AgentTcpRoundTrip(t, tail);
    case UpUdp(u) => TagRoundTrip(1, SerAgentUdp(u), tail); AgentUdpRoundTrip(u, tail);
    case DownTcp(t) => TagRoundTrip(0, SerProxyTcp(t), tail); ProxyTcpRoundTrip(t, tail);
    case DownUdp(u) => TagRoundTrip(1, SerProxyUdp(u), tail); ProxyUdpRoundTrip(u, tail);
  }

  /** The addresses in a payload. */
  function AddressesIn(p: Payload): seq<Address> {
    match p
    case UpTcp(AgentInit(s, d)) => [s, d]
    case UpUdp(u) => [u.src, u.dst]
    case DownTcp(ProxyInit(s, d, _)) => [s, d]
    case DownUdp(u) => [u.src, u.dst]
    case _ => []
  }

  /** No V6 flow information and no scope. */
  predicate Unscoped(a: Address) {
    a.Ip? && a.socket.V6? ==> a.socket.flowInfo == 0 && a.socket.scopeId == 0
  }

  /** A payload survives the trip unchanged exactly when its V6 addresses carry no flow or scope. */
  lemma PayloadLossless(p: Payload, tail: seq<byte>)
    requires PayloadFits(p)
    ensures DePayload(DirectionOf(p), SerPayload(p) + tail) == Some((p, tail))
       <==> forall a :: a in AddressesIn(p) ==> Unscoped(a)
  {
    PayloadRoundTrip(p, tail);
    hide DePayload, SerPayload;
    match p
    case UpTcp(AgentInit(s, d)) => NormalRoute(s, d);
    case UpUdp(u) => NormalRoute(u.src, u.dst);
    case DownTcp(ProxyInit(s, d, _)) => NormalRoute(s, d);
    case DownUdp(u) => NormalRoute(u.src, u.dst);
    case _ =>
  }

  /** Serialization changes no address of a route exactly when neither has a flow or scope. */
  lemma NormalRoute(src: Address, dst: Address)
    ensures Normal(src) == src && Normal(dst) == dst <==> forall a :: a in [src, dst] ==> Unscoped(a)
  {
    assert src in [src, dst] && dst in [src, dst];
  }

  lemma CodecMessageRoundTrip(m: CodecMessage, tail: seq<byte>)
    requires CodecMessageFits(m)
    ensures DeCodecMessage(SerCodecMessage(m) + tail) == Some((m, tail))
  {
    var s3 := SerBytes(m.payload);
    var s2 := SerEncryption(m.encryption) + s3;
    var s1 := SerBytes(m.user) + s2;
    Assoc(SerBytes(m.id), s1, tail);
    Assoc(SerBytes(m.user), s2, tail);
    Assoc(SerEncryption(m.encryption), s3, tail);
    StringRoundTrip(m.id, s1 + tail);
    StringRoundTrip(m.user, s2 + tail);
    EncryptionRoundTrip(m.encryption, s3 + tail);
    BytesRoundTrip(m.payload, tail);
  }

  // ----- the serialized form is unique: whatever reads successfully is what the writer writes -----

  lemma UintUnique(s: seq<byte>, width: nat, n: nat, rest: seq<byte>)
    requires DeUint(s, width) == Some((n, rest))
    ensures Le(n, width) + rest == s && n < Pow256(width)
  {
    LeUnique(s[..width]);
    assert s == s[..width] + s[width..];
  }

  lemma TagUnique(s: seq<byte>, tag: nat, rest: seq<byte>)
    requires DeUint(s, 4) == Some((tag, rest))
    ensures tag < 0x1_0000_0000 && SerTag(tag) + rest == s
  {
    Pow256Values();
    UintUnique(s, 4, tag, rest);
  }

  lemma BytesUnique(s: seq<byte>, b: seq<byte>, tail: seq<byte>)
    requires DeBytes(s) == Some((b, tail))
    ensures SerBytes(b) + tail == s
  {
    var (n, rest) := DeUint(s, 8).value;
    UintUnique(s, 8, n, rest);
    assert rest == b + tail;
    Assoc(Le(n, 8), b, tail);
  }

  lemma EndpointUnique(s: seq<byte>, width: nat, port: u16, tail: seq<byte>)
    requires width <= |s| && DeU16(s[width..]) == Some((port, tail))
    ensures s[..width] + Le(port, 2) + tail == s
  {
    UintUnique(s[width..], 2, port, tail);
    assert s == s[..width] + s[width..];
    Assoc(s[..width], Le(port, 2), tail);
  }

  lemma SocketUnique(s: seq<byte>, a: SocketAddr, tail: seq<byte>)
    requires DeSocket(s) == Some((a, tail))
    ensures SerSocket(a) + tail == s && NormalSocket(a) == a
  {
    var (tag, s1) := DeUint(s, 4).value;
    TagUnique(s, tag, s1);
    match a
    case V4(ip, port) =>
      EndpointUnique(s1, 4, port, tail);
      Assoc(SerTag(0), ip + Le(port, 2), tail);
    case V6(ip, port, _, _) =>
      EndpointUnique(s1, 16, port, tail);
      Assoc(SerTag(1), ip + Le(port, 2), tail);
  }

  lemma AddressUnique(s: seq<byte>, a: Address, tail: seq<byte>)
    requires DeAddress(s) == Some((a, tail))
    ensures SerAddress(a) + tail == s && Normal(a) == a
  {
    var (tag, s1) := DeUint(s, 4).value;
    TagUnique(s, tag, s1);
    match a
    case Ip(socket) =>
      SocketUnique(s1, socket, tail);
      Assoc(SerTag(0), SerSocket(socket), tail);
    case Domain(host, port) =>
      var (_, s2) := DeString(s1).value;
      BytesUnique(s1, host, s2);
      UintUnique(s2, 2, port, tail);
      Assoc(SerBytes(host), Le(port, 2), tail);
      Assoc(SerTag(1), SerBytes(host) + Le(port, 2), tail);
  }

  lemma RouteUnique(s: seq<byte>, src: Address, dst: Address, tail: seq<byte>)
    requires DeRoute(s) == Some(((src, dst), tail))
    ensures SerRoute(src, dst) + tail == s && Normal(src) == src && Normal(dst) == dst
  {
    var (_, s1) := DeAddress(s).value;
    AddressUnique(s, src, s1);
    AddressUnique(s1, dst, tail);
    Assoc(SerAddress(src), SerAddress(dst), tail);
  }

  lemma EncryptionUnique(s: seq<byte>, e: Encryption, tail: seq<byte>)
    requires DeEncryption(s) == Some((e, tail))
    ensures SerEncryption(e) + tail == s
  {
    var (tag, s1) := DeUint(s, 4).value;
    TagUnique(s, tag, s1);
    if e.Aes? {
      BytesUnique(s1, e.token, tail);
      Assoc(SerTag(1), SerBytes(e.token), tail);
    }
  }

  lemma ResultUnique(s: seq<byte>, r: InitResult, tail: seq<byte>)
    requires DeResult(s) == Some((r, tail))
    ensures SerResult(r) + tail == s
  {
    var (tag, s1) := DeUint(s, 4).value;
    TagUnique(s, tag, s1);
    match r
    case Success(tunnelId) =>
      BytesUnique(s1, tunnelId, tail);
      Assoc(SerTag(0), SerBytes(tunnelId), tail);
    case Fail(reason) =>
      var code := if reason.CanNotConnect? then 0 else 1;
      TagUnique(s1, code, tail);
      Assoc(SerTag(1), SerTag(code), tail);
  }

  lemma AgentTcpUnique(s: seq<byte>, t: AgentTcp, tail: seq<byte>)
    requires DeAgentTcp(s) == Some((t, tail))
    ensures SerAgentTcp(t) + tail == s && NormalPayload(UpTcp(t)) == UpTcp(t)
  {
    var (tag, s1) := DeUint(s, 4).value;
    TagUnique(s, tag, s1);
    match t
    case AgentInit(src, dst) =>
      RouteUnique(s1, src, dst, tail);
      Assoc(SerTag(0), SerRoute(src, dst), tail);
    case AgentData(content) =>
      BytesUnique(s1, content, tail);
      Assoc(SerTag(1), SerBytes(content), tail);
  }

  lemma ProxyTcpUnique(s: seq<byte>, t: ProxyTcp, tail: seq<byte>)
    requires DeProxyTcp(s) == Some((t, tail))
    ensures SerProxyTcp(t) + tail == s && NormalPayload(DownTcp(t)) == DownTcp(t)
  {
    hide SerRoute, SerResult, Le, ValidUtf8;
    var (tag, s1) := DeUint(s, 4).value;
    TagUnique(s, tag, s1);
    match t
    case ProxyInit(src, dst, result) =>
      var (_, s2) := DeRoute(s1).value;
      RouteUnique(s1, src, dst, s2);
      ResultUnique(s2, result, tail);
      Assoc(SerRoute(src, dst), SerResult(result), tail);
      Assoc(SerTag(0), SerRoute(src, dst) + SerResult(result), tail);
    case ProxyData(content) =>
      BytesUnique(s1, content, tail);
      Assoc(SerTag(1), SerBytes(content), tail);
  }

  lemma BoolUnique(s: seq<byte>, b: bool, tail: seq<byte>)
    requires DeBool(s) == Some((b, tail))
    ensures SerBool(b) + tail == s
  {
    assert s == [s[0]] + s[1..];
  }

  lemma AgentUdpUnique(s: seq<byte>, u: AgentUdp, tail: seq<byte>)
    requires DeAgentUdp(s) == Some((u, tail))
    ensures SerAgentUdp(u) + tail == s && NormalPayload(UpUdp(u)) == UpUdp(u)
  {
    var (_, s1) := DeRoute(s).value;
    RouteUnique(s, u.src, u.dst, s1);
    var (_, s2) := DeBytes(s1).value;
    BytesUnique(s1, u.data, s2);
    BoolUnique(s2, u.needResponse, tail);
    Assoc(SerBytes(u.data), SerBool(u.needResponse), tail);
    Assoc(SerRoute(u.src, u.dst), SerBytes(u.data) + SerBool(u.needResponse), tail);
  }

  lemma ProxyUdpUnique(s: seq<byte>, u: ProxyUdp, tail: seq<byte>)
    requires DeProxyUdp(s) == Some((u, tail))
    ensures SerProxyUdp(u) + tail == s && NormalPayload(DownUdp(u)) == DownUdp(u)
  {
    var (_, s1) := DeRoute(s).value;
    RouteUnique(s, u.src, u.dst, s1);
    BytesUnique(s1, u.data, tail);
    Assoc(SerRoute(u.src, u.dst), SerBytes(u.data), tail);
  }

  /** A payload that reads successfully re-serializes to exactly the bytes that were read. */
  lemma PayloadUnique(dir: Direction, s: seq<byte>, p: Payload, tail: seq<byte>)
    requires DePayload(dir, s) == Some((p, tail))
    ensures SerPayload(p) + tail == s && DirectionOf(p) == dir && NormalPayload(p) == p
  {
    hide SerAgentTcp, SerAgentUdp, SerProxyTcp, SerProxyUdp, DeRoute, DeResult, DeBytes, DeBool, ValidUtf8;
    var (tag, s1) := DeUint(s, 4).value;
    TagUnique(s, tag, s1);
    match p
    case UpTcp(t) => AgentTcpUnique(s1, t, tail); Assoc(SerTag(0), SerAgentTcp(t), tail);
    case UpUdp(u) => AgentUdpUnique(s1, u, tail); Assoc(SerTag(1), SerAgentUdp(u), tail);
    case DownTcp(t) => ProxyTcpUnique(s1, t, tail); Assoc(SerTag(0), SerProxyTcp(t), tail);
    case DownUdp(u) => ProxyUdpUnique(s1, u, tail); Assoc(SerTag(1), SerProxyUdp(u), tail);
  }

  lemma CodecMessageUnique(s: seq<byte>, m: CodecMessage, tail: seq<byte>)
    requires DeCodecMessage(s) == Some((m, tail))
    ensures SerCodecMessage(m) + tail == s
  {
    var (_, s1) := DeString(s).value;
    BytesUnique(s, m.id, s1);
    var (_, s2) := DeString(s1).value;
    BytesUnique(s1, m.user, s2);
    var (_, s3) := DeEncryption(s2).value;
    EncryptionUnique(s2, m.encryption, s3);
    BytesUnique(s3, m.payload, tail);
    Assoc(SerEncryption(m.encryption), SerBytes(m.payload), tail);
    Assoc(SerBytes(m.user), SerEncryption(m.encryption) + SerBytes(m.payload), tail);
    Assoc(SerBytes(m.id), SerBytes(m.user) + (SerEncryption(m.encryption) + SerBytes(m.payload)), tail);
  }
}
