/**
  The agent's side of the UDP path. Every datagram of the associated client opens a connection of its own to
  the proxy: the request and the reply each travel in one frame, which may be cut into any reads and may
  arrive only in part.
 */
module UdpRelay {
  import opened Wrappers
  import opened Octets
  import opened Utf8
  import opened Messages
  import opened Codec
  import opened Stream
  import opened Transfer
  import opened Socks5
  import opened SocksFormat
  import opened Udp

  /** What is fixed while one client is served. */
  datatype Ends = Ends(
    agent: Endpoint, agentConfig: Config, proxy: Endpoint, proxyConfig: Config, user: Str, token: Token, client: Address)

  /** How one message travels: its id, the randomness its token is wrapped with, the sizes of the reads that arrive. */
  datatype Trip = Trip(id: Id, random: nat, sizes: seq<nat>)

  datatype Exchange = Exchange(
    created: bool, sent: bool, request: Trip, script: ProxyScript, token: Token, reply: Trip, delivered: bool)

  /** A receive on the agent's UDP socket, with the exchange it may start. */
  datatype ClientEvent = ReceiveFailed | FromClient(source: SocketAddr, bytes: seq<byte>, exchange: Exchange)

  /** One answer sent to the client: where to, and the datagram. */
  datatype Answer = Answer(to: SocketAddr, datagram: seq<byte>)

  datatype Reaction =
    | Ignore            // not from the associated client
    | Reply(answer: Answer, delivered: bool)
    | Stop              // the relay loop returns

  // ----- one exchange -----

  function Request(ends: Ends, d: Datagram, trip: Trip): Sent {
    Sent(Message(trip.id, ends.user, Aes(ends.token), UpUdp(AgentUdp(ends.client, d.address, d.data, true))), trip.random)
  }

  function ReplyTo(user: Str, reply: ProxyUdp, token: Token, trip: Trip): Sent {
    Sent(Message(trip.id, user, Aes(token), DownUdp(reply)), trip.random)
  }

  /** What the proxy sends after it has read its first message. */
  function ProxySends(request: Message, x: Exchange): Option<Sent> {
    if !request.payload.UpUdp? then None else
    var reply :- ProxyReply(request.payload.upUdp, x.script);
    Some(ReplyTo(request.user, reply, x.token, x.reply))
  }

  /** The first message the agent reads back. */
  function ReadBack(ends: Ends, d: Datagram, x: Exchange): Option<Message> {
    if !x.created || !x.sent then None else
    var request :- Arrival(ends.agent, ends.proxy, ends.agentConfig, Up, Request(ends, d, x.request), x.request.sizes);
    var reply :- ProxySends(request, x);
    Arrival(ends.proxy, ends.agent, ends.proxyConfig, Down, reply, x.reply.sizes)
  }

  /** What the proxy sends to the destination in the exchange, however the agent fares. */
  function Emitted(ends: Ends, d: Datagram, x: Exchange): Option<Outgoing> {
    if !x.created then None else
    var request :- Arrival(ends.agent, ends.proxy, ends.agentConfig, Up, Request(ends, d, x.request), x.request.sizes);
    if !request.payload.UpUdp? || !Reaches(x.script) then None
    else Some(Outgoing(request.payload.upUdp.dst, request.payload.upUdp.data))
  }

  /** What the agent makes of the message it reads back. */
  function AnswerFrom(m: Option<Message>, delivered: bool): Reaction {
    if m.None? || !m.value.payload.DownUdp? || !m.value.payload.downUdp.src.Ip? then Stop else
    var reply := m.value.payload.downUdp;
    Reply(Answer(reply.src.socket, PrintDatagram(Datagram(0, reply.dst, reply.data))), delivered)
  }

  function React(ends: Ends, e: ClientEvent): Reaction {
    match e
    case ReceiveFailed => Stop
    case FromClient(source, bytes, exchange) =>
      if ends.client != Ip(source) then Ignore else
      match ParseDatagram(bytes)
      case Err(_) => Stop
      case Ok(d) => AnswerFrom(ReadBack(ends, d, exchange), exchange.delivered)
  }

  /** What reaches a destination because of `e`. */
  function EmittedFor(ends: Ends, e: ClientEvent): Option<Outgoing> {
    if !e.FromClient? || ends.client != Ip(e.source) || ParseDatagram(e.bytes).Err? then None
    else Emitted(ends, ParseDatagram(e.bytes).value, e.exchange)
  }

  /** Everything the agent sends to its client over a script of receives. */
  function Relayed(ends: Ends, events: seq<ClientEvent>): seq<Answer> {
    if events == [] then [] else
    match React(ends, events[0])
    case Ignore => Relayed(ends, events[1..])
    case Stop => []
    case Reply(answer, delivered) => [answer] + if delivered then Relayed(ends, events[1..]) else []
  }

  lemma NothingRelayed(ends: Ends)
    ensures Relayed(ends, []) == []
  {
  }

  lemma RelayedCons(ends: Ends, e: ClientEvent, later: seq<ClientEvent>)
    ensures Relayed(ends, [e] + later) ==
      match React(ends, e)
      case Ignore => Relayed(ends, later)
      case Stop => []
      case Reply(answer, delivered) => [answer] + if delivered then Relayed(ends, later) else []
  {
    hide React;
    assert ([e] + later)[0] == e && ([e] + later)[1..] == later;
  }

  /** One exchange: the request is encoded, carried and decoded, and so is the reply, on one connection. */
  method RunExchange(ends: Ends, d: Datagram, x: Exchange) returns (m: Option<Message>, out: Option<Outgoing>)
    requires LibraryLaws(ends.agent.lib) && LibraryLaws(ends.proxy.lib)
    ensures m == ReadBack(ends, d, x) && out == Emitted(ends, d, x)
  {
    hide Arrival, LibraryLaws, ProxyReply, Collected;
    if !x.created {
      return None, None;
    }
    var agent := new ConnectionCodec(ends.agent, ends.agentConfig, Down);
    var proxy := new ConnectionCodec(ends.proxy, ends.proxyConfig, Up);
    var request := Transfer.Carry(agent, proxy, Request(ends, d, x.request), x.request.sizes);
    if request.None? || !request.value.payload.UpUdp? {
      return None, None;
    }
    var reply, _, sent := ProxyExec(request.value.payload.upUdp, x.script);
    out := sent;
    if reply.None? || !x.sent {
      return None, out;
    }
    m := Transfer.Carry(proxy, agent, ReplyTo(request.value.user, reply.value, x.token, x.reply), x.reply.sizes);
  }

  /** One turn of the loop over client datagrams. */
  method Serve(ends: Ends, e: ClientEvent) returns (r: Reaction, out: Option<Outgoing>)
    requires LibraryLaws(ends.agent.lib) && LibraryLaws(ends.proxy.lib)
    ensures r == React(ends, e) && out == EmittedFor(ends, e)
  {
    hide ReadBack, Emitted, LibraryLaws, ParseAddress, PrintAddress;
    match e {
      case ReceiveFailed => return Stop, None;
      case FromClient(source, bytes, exchange) =>
        if ends.client != Ip(source) {
          return Ignore, None;
        }
        var src := new BytesMut(bytes);
        var parsed := ReadDatagram(src);
        if parsed.Err? {
          return Stop, None;
        }
        var m;
        m, out := RunExchange(ends, parsed.value, exchange);
        if m.None? || !m.value.payload.DownUdp? {
          return Stop, out;
        }
        var reply := m.value.payload.downUdp;
        if !reply.src.Ip? {
          return Stop, out;
        }
        var datagram := WriteDatagram(Datagram(0, reply.dst, reply.data));
        return Reply(Answer(reply.src.socket, datagram), exchange.delivered), out;
    }
  }

  /** `relay_udp_data`. */
  method RelayUdpData(ends: Ends, events: seq<ClientEvent>) returns (answers: seq<Answer>)
    requires LibraryLaws(ends.agent.lib) && LibraryLaws(ends.proxy.lib)
    ensures answers == Relayed(ends, events)
  {
    hide React, Relayed, LibraryLaws;
    answers := [];
    assert events[0..] == events;
    NothingRelayed(ends);
    for i := 0 to |events|
      invariant Relayed(ends, events) == answers + Relayed(ends, events[i..])
    {
      assert events[i..] == [events[i]] + events[i + 1..];
      RelayedCons(ends, events[i], events[i + 1..]);
      var r, _ := Serve(ends, events[i]);
      match r {
        case Ignore =>
        case Stop => return;
        case Reply(answer, delivered) =>
          answers := answers + [answer];
          if !delivered {
            return;
          }
      }
    }
  }

  // ----- what a client gets -----

  /** Both ends hold matching keys for the user; the client's address carries no V6 flow or scope. */
  ghost predicate Paired(ends: Ends) {
    && Peers(ends.agent, ends.proxy, ends.user) && Peers(ends.proxy, ends.agent, ends.user)
    && GzipMagic(ends.agent.lib) && Normal(ends.client) == ends.client
  }

  /** What the proxy answers to a datagram it gets. */
  function Wanted(ends: Ends, d: Datagram, x: Exchange): Option<ProxyUdp> {
    ProxyReply(AgentUdp(ends.client, d.address, d.data, true), x.script)
  }

  /** Only what fits in memory is ever encoded. */
  predicate Holdable(ends: Ends, d: Datagram, x: Exchange) {
    && Representable(ends.agent, ends.agentConfig, Request(ends, d, x.request).message, x.request.random)
    && match Wanted(ends, d, x)
       case None => true
       case Some(reply) =>
         Representable(ends.proxy, ends.proxyConfig, ReplyTo(ends.user, reply, x.token, x.reply).message, x.reply.random)
  }

  /** `x` can be encoded and its whole frame is read. */
  predicate GetsThrough(from: Endpoint, cfg: Config, x: Sent, sizes: seq<nat>) {
    Encodes(from, cfg, x) && Total(sizes) >= |Encoded(from, cfg, x)|
  }

  /** The network lets the exchange happen: both frames get through and the destination answers. */
  predicate Succeeds(ends: Ends, d: Datagram, x: Exchange) {
    && x.created && x.sent
    && GetsThrough(ends.agent, ends.agentConfig, Request(ends, d, x.request), x.request.sizes)
    && match Wanted(ends, d, x)
       case None => false
       case Some(reply) =>
         GetsThrough(ends.proxy, ends.proxyConfig, ReplyTo(ends.user, reply, x.token, x.reply), x.reply.sizes)
  }

  /** Parsed addresses carry no V6 flow or scope, so the tunnel changes none of them. */
  lemma ParsedIsNormal(s: seq<byte>)
    requires ParseAddress(s).result.Ok?
    ensures Normal(ParseAddress(s).result.value) == ParseAddress(s).result.value
  {
  }

  /**
    What arrives at the proxy is the client's data for the destination the client named, for that user and
    client, enciphered under the agent's token.
   */
  lemma RequestArrivesAs(ends: Ends, d: Datagram, x: Exchange)
    requires Paired(ends) && Normal(d.address) == d.address && Holdable(ends, d, x)
    ensures var a := Arrival(ends.agent, ends.proxy, ends.agentConfig, Up, Request(ends, d, x.request), x.request.sizes);
      a.Some? ==>
        && a.value.user == ends.user && a.value.payload == UpUdp(AgentUdp(ends.client, d.address, d.data, true))
        && a.value.encryption.Aes? && ends.proxy.fetch(ends.user).rsa.decrypt(a.value.encryption.token) == Some(ends.token)
  {
    hide Arrival, Encodes, Encoded, Representable, LibraryLaws, GzipMagic, Total, Arriving;
    var request := Request(ends, d, x.request);
    ArrivesExactly(ends.agent, ends.proxy, ends.agentConfig, Up, request, x.request.sizes);
    ArrivesAs(ends.agent, ends.agentConfig, request);
    if Encodes(ends.agent, ends.agentConfig, request) {
      ArrivesSecret(ends.agent, ends.proxy, ends.agentConfig, request);
    }
    ReplyIsNormal(ends, d, x);
  }

  /** An encoded `Aes` message arrives with a token that unwraps to the sender's. */
  lemma ArrivesSecret(from: Endpoint, to: Endpoint, cfg: Config, x: Sent)
    requires Peers(from, to, x.message.user) && x.message.encryption.Aes? && Encodes(from, cfg, x)
    ensures var e := Arriving(from, x).encryption;
      e.Aes? && to.fetch(x.message.user).rsa.decrypt(e.token) == Some(x.message.encryption.token)
  {
    hide Peers;
    ReceivedToken(from, to, x.message, x.random);
  }

  /**
    A destination gets a datagram if and only if a well-formed one of the associated client reaches the proxy
    and the proxy's socket steps succeed; it is then the client's data, sent to the address the client named.
   */
  lemma DestinationGetsExactly(ends: Ends, e: ClientEvent)
    requires Paired(ends) && InMemory(ends, e) && e.FromClient?
    ensures EmittedFor(ends, e).Some? <==>
      && ends.client == Ip(e.source) && ParseDatagram(e.bytes).Ok? && e.exchange.created
      && GetsThrough(ends.agent, ends.agentConfig, Request(ends, ParseDatagram(e.bytes).value, e.exchange.request), e.exchange.request.sizes)
      && ends.agentConfig.MarksFaithfully()
      && e.exchange.script.bound && e.exchange.script.resolved && e.exchange.script.connected && e.exchange.script.sent
    ensures EmittedFor(ends, e).Some? ==>
      && EmittedFor(ends, e).value.to == ParseDatagram(e.bytes).value.address
      && EmittedFor(ends, e).value.data == ParseDatagram(e.bytes).value.data
  {
    hide Arrival, Encodes, Encoded, Representable, LibraryLaws, KeyPair, GzipMagic, Total, ParseAddress, PrintAddress;
    if ends.client == Ip(e.source) && ParseDatagram(e.bytes).Ok? {
      var d := ParseDatagram(e.bytes).value;
      ParsedIsNormal(e.bytes[3..]);
      RequestArrivesAs(ends, d, e.exchange);
      ArrivesExactly(ends.agent, ends.proxy, ends.agentConfig, Up, Request(ends, d, e.exchange.request), e.exchange.request.sizes);
    }
  }

  /** For the bytes a client sends: two reserved ones, a fragment number, an address and data. */
  lemma DataReachesDestination(ends: Ends, e: ClientEvent, r0: byte, r1: byte, frag: byte, address: Address, data: seq<byte>)
    requires Paired(ends) && InMemory(ends, e) && e.FromClient? && Printable(address)
    requires e.bytes == [r0, r1, frag] + (PrintAddress(address) + data)
    ensures EmittedFor(ends, e).Some? ==> EmittedFor(ends, e) == Some(Outgoing(address, data))
  {
    hide Emitted, ParseDatagram, PrintAddress, Printable, Holdable, Paired;
    DatagramBytes(r0, r1, frag, address, data);
    DestinationGetsExactly(ends, e);
  }

  /**
    The reply is read back if and only if the network lets the exchange happen and both ends mark their
    frames faithfully; it is then the proxy's answer, unchanged.
   */
  lemma ReadBackExactly(ends: Ends, d: Datagram, x: Exchange)
    requires Paired(ends) && Normal(d.address) == d.address && Holdable(ends, d, x)
    ensures ReadBack(ends, d, x).Some?
       <==> Succeeds(ends, d, x) && ends.agentConfig.MarksFaithfully() && ends.proxyConfig.MarksFaithfully()
    ensures ReadBack(ends, d, x).Some? ==>
      Wanted(ends, d, x).Some? && ReadBack(ends, d, x).value.payload == DownUdp(Wanted(ends, d, x).value)
    ensures ReadBack(ends, d, x).Some? ==>
      && ReadBack(ends, d, x).value.encryption.Aes?
      && ends.agent.fetch(ends.user).rsa.decrypt(ReadBack(ends, d, x).value.encryption.token) == Some(x.token)
  {
    hide Arrival, Encodes, Encoded, Representable, LibraryLaws, KeyPair, GzipMagic, Total, Arriving, ProxyReply;
    var request := Request(ends, d, x.request);
    ArrivesExactly(ends.agent, ends.proxy, ends.agentConfig, Up, request, x.request.sizes);
    ArrivesAs(ends.agent, ends.agentConfig, request);
    var wanted := Wanted(ends, d, x);
    if wanted.Some? {
      ReplyIsNormal(ends, d, x);
      var sent := ReplyTo(ends.user, wanted.value, x.token, x.reply);
      ArrivesExactly(ends.proxy, ends.agent, ends.proxyConfig, Down, sent, x.reply.sizes);
      ArrivesAs(ends.proxy, ends.proxyConfig, sent);
      if Encodes(ends.proxy, ends.proxyConfig, sent) {
        ArrivesSecret(ends.proxy, ends.agent, ends.proxyConfig, sent);
      }
    }
  }

  lemma ArrivesAs(from: Endpoint, cfg: Config, x: Sent)
    ensures Encodes(from, cfg, x) ==>
      Arriving(from, x).payload == NormalPayload(x.message.payload) && Arriving(from, x).user == x.message.user
  {
  }

  /** The proxy answers under the normal client address with the destination it was asked for. */
  lemma ReplyIsNormal(ends: Ends, d: Datagram, x: Exchange)
    requires Normal(ends.client) == ends.client && Normal(d.address) == d.address
    ensures Wanted(ends, d, x).Some? ==>
      NormalPayload(DownUdp(Wanted(ends, d, x).value)) == DownUdp(Wanted(ends, d, x).value)
    ensures NormalPayload(Request(ends, d, x.request).message.payload) == Request(ends, d, x.request).message.payload
  {
  }

  /** The event carries a datagram, and what is sent for it fits in memory. */
  predicate InMemory(ends: Ends, e: ClientEvent) {
    e.FromClient? && ParseDatagram(e.bytes).Ok? ==> Holdable(ends, ParseDatagram(e.bytes).value, e.exchange)
  }

  /**
    A datagram is answered if and only if it is a well-formed one of the associated client, the network lets
    the exchange happen, and each end compresses or has a flag of its own for uncompressed bodies.
   */
  lemma AnswersExactly(ends: Ends, e: ClientEvent)
    requires Paired(ends) && InMemory(ends, e)
    ensures React(ends, e).Reply?
       <==> e.FromClient? && ends.client == Ip(e.source) && ParseDatagram(e.bytes).Ok?
            && Succeeds(ends, ParseDatagram(e.bytes).value, e.exchange)
            && ends.agentConfig.MarksFaithfully() && ends.proxyConfig.MarksFaithfully()
  {
    hide ReadBack, Succeeds, Holdable, ParseAddress, PrintAddress, Peers, GzipMagic, ProxyReply;
    if e.FromClient? && ends.client == Ip(e.source) && ParseDatagram(e.bytes).Ok? {
      ParsedIsNormal(e.bytes[3..]);
      ReadBackExactly(ends, ParseDatagram(e.bytes).value, e.exchange);
      WantedGoesBack(ends, ParseDatagram(e.bytes).value, e.exchange);
    }
  }

  lemma WantedGoesBack(ends: Ends, d: Datagram, x: Exchange)
    ensures Wanted(ends, d, x).Some? ==> Wanted(ends, d, x).value.src == ends.client && Wanted(ends, d, x).value.dst == d.address
  {
  }

  /**
    An answer goes back to the client and carries, under the destination the client asked for, the
    receives up to and including the first short one; the client parses it as that exactly when the
    destination can be printed.
   */
  lemma AnswerIsRight(ends: Ends, e: ClientEvent)
    requires Paired(ends) && InMemory(ends, e) && React(ends, e).Reply?
    ensures ParseDatagram(e.bytes).Ok? && ends.client == Ip(e.source)
    ensures var asked, answer := ParseDatagram(e.bytes).value, React(ends, e).answer;
      && answer.to == e.source
      && exists k :: ShortAt(e.exchange.script.receives, k)
           && var data := Joined(e.exchange.script.receives[..k + 1]);
              && data != []
              && answer.datagram == PrintDatagram(Datagram(0, asked.address, data))
              && (ParseDatagram(answer.datagram) == Ok(Datagram(0, asked.address, data)) <==> Printable(asked.address))
  {
    hide ReadBack, Succeeds, Holdable, ParseAddress, PrintAddress, Printable, Peers, GzipMagic, ProxyReply, Collected, Joined;
    var asked := ParseDatagram(e.bytes).value;
    ParsedIsNormal(e.bytes[3..]);
    ReadBackExactly(ends, asked, e.exchange);
    var receives := e.exchange.script.receives;
    RepliesExactly(AgentUdp(ends.client, asked.address, asked.data, true), e.exchange.script);
    var k :| ShortAt(receives, k) && Joined(receives[..k + 1]) != [];
    DatagramRoundTripExactly(Datagram(0, asked.address, Joined(receives[..k + 1])));
  }

  predicate Foreign(ends: Ends, e: ClientEvent) {
    e.FromClient? && ends.client != Ip(e.source)
  }

  function WithoutForeign(ends: Ends, events: seq<ClientEvent>): seq<ClientEvent> {
    if events == [] then []
    else if Foreign(ends, events[0]) then WithoutForeign(ends, events[1..])
    else [events[0]] + WithoutForeign(ends, events[1..])
  }

  lemma WithoutForeignCons(ends: Ends, e: ClientEvent, later: seq<ClientEvent>)
    ensures WithoutForeign(ends, [e] + later)
         == if Foreign(ends, e) then WithoutForeign(ends, later) else [e] + WithoutForeign(ends, later)
  {
    assert ([e] + later)[1..] == later;
  }

  /** Datagrams from any other source change nothing. */
  lemma {:induction false} ForeignDatagramsIgnored(ends: Ends, events: seq<ClientEvent>)
    ensures Relayed(ends, events) == Relayed(ends, WithoutForeign(ends, events))
    decreases |events|
  {
    hide React, Relayed;
    if events != [] {
      hide WithoutForeign;
      ForeignDatagramsIgnored(ends, events[1..]);
      WithoutForeignCons(ends, events[0], events[1..]);
      assert events == [events[0]] + events[1..];
      RelayedCons(ends, events[0], events[1..]);
      ReactForeign(ends, events[0]);
      if !Foreign(ends, events[0]) {
        RelayedCons(ends, events[0], WithoutForeign(ends, events[1..]));
      }
    }
  }

  /** `answers` are those to the first datagrams of `own`, which stops at one with no answer or a lost one. */
  predicate AnswersTo(ends: Ends, own: seq<ClientEvent>, answers: seq<Answer>) {
    && |answers| <= |own|
    && (forall i :: 0 <= i < |answers| ==> React(ends, own[i]).Reply? && answers[i] == React(ends, own[i]).answer)
    && (|answers| < |own| ==>
          React(ends, own[|answers|]).Stop? || (|answers| > 0 && !React(ends, own[|answers| - 1]).delivered))
  }

  lemma AnswersToCons(ends: Ends, e: ClientEvent, own: seq<ClientEvent>, answers: seq<Answer>)
    requires React(ends, e).Reply? && React(ends, e).delivered && AnswersTo(ends, own, answers)
    ensures AnswersTo(ends, [e] + own, [React(ends, e).answer] + answers)
  {
    hide React;
  }

  lemma AnswersStep(ends: Ends, e: ClientEvent, later: seq<ClientEvent>)
    requires AnswersTo(ends, WithoutForeign(ends, later), Relayed(ends, later))
    ensures AnswersTo(ends, WithoutForeign(ends, [e] + later), Relayed(ends, [e] + later))
  {
    hide React, Relayed, AnswersTo, WithoutForeign;
    RelayedCons(ends, e, later);
    WithoutForeignCons(ends, e, later);
    ReactForeign(ends, e);
    var own := WithoutForeign(ends, later);
    match React(ends, e)
    case Ignore =>
    case Stop => AnswersEnd(ends, e, own);
    case Reply(answer, delivered) =>
      if delivered {
        AnswersToCons(ends, e, own, Relayed(ends, later));
      } else {
        AnswersEnd(ends, e, own);
        assert [answer] + [] == [answer];
      }
  }

  /**
    The answers are, in order, those to the client's own first datagrams, one each, and the relay stops
    at the first of them that gets none or whose answer could not be delivered.
   */
  lemma {:induction false} AnswersInOrder(ends: Ends, events: seq<ClientEvent>)
    ensures AnswersTo(ends, WithoutForeign(ends, events), Relayed(ends, events))
    decreases |events|
  {
    if events == [] {
      NoAnswers(ends);
    } else {
      hide AnswersTo, WithoutForeign, Relayed;
      AnswersInOrder(ends, events[1..]);
      AnswersStep(ends, events[0], events[1..]);
      assert events == [events[0]] + events[1..];
    }
  }

  lemma NoAnswers(ends: Ends)
    ensures AnswersTo(ends, [], [])
  {
  }

  /** No answer, or one that is not delivered, ends the relay. */
  lemma AnswersEnd(ends: Ends, e: ClientEvent, own: seq<ClientEvent>)
    ensures React(ends, e).Stop? ==> AnswersTo(ends, [e] + own, [])
    ensures React(ends, e).Reply? && !React(ends, e).delivered ==> AnswersTo(ends, [e] + own, [React(ends, e).answer])
  {
    hide React;
  }

  lemma ReactForeign(ends: Ends, e: ClientEvent)
    ensures Foreign(ends, e) <==> React(ends, e).Ignore?
  {
  }
}
