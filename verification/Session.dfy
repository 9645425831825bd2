/**
  A TCP tunnel as a distributed step system. The agent sends an Init request and waits for the reply;
  the proxy connects to the destination and replies; then each side runs two independent relay tasks
  over the two directions of one connection. Steps interleave freely; every I/O operation may fail.
 */
module Session {
  import opened Wrappers
  import opened Octets
  import opened Utf8
  import opened Messages
  import opened Codec
  import opened Stream
  import opened Relay
  import opened Flow

  /** What is fixed for one tunnel: both endpoints and what the client asked for. */
  datatype Tunnel = Tunnel(
    agent: Endpoint, agentConfig: Config, proxy: Endpoint, proxyConfig: Config,
    user: Str, initToken: Token, dataToken: Token, proxyToken: Token,
    src: Address, dst: Address,
    initData: Option<seq<byte>>)  // absent for SOCKS5 and HTTP CONNECT clients

  function UpLink(k: Tunnel): Link {
    Link(k.agent, k.proxy, k.agentConfig, Up, k.user)
  }

  function DownLink(k: Tunnel): Link {
    Link(k.proxy, k.agent, k.proxyConfig, Down, k.user)
  }

  /** Both ends hold matching keys and mark their frames the way they pack them. */
  ghost predicate Conforming(k: Tunnel) {
    Working(UpLink(k)) && Working(DownLink(k))
  }

  /** A sending relay task: its source is open, it flushes what it has encoded, its connection is shut. */
  datatype Task = Sending | Closing | Closed

  datatype AgentState =
    | ASendInit   // connected to the proxy
    | AFlushInit  // Init encoded, not yet flushed
    | AAwait      // waiting for the reply
    | AStart      // reply was a success
    | AFlushData  // initial data encoded, not yet flushed
    | ARelay(sending: Task, receiving: bool)
    | AFailed

  datatype ProxyState =
    | PFirst                                          // waiting for the first message
    | PConnect(user: Str, src: Address, dst: Address) // connecting to the destination
    | PReply(user: Str, connected: bool)              // reply encoded, not yet flushed
    | PRelay(user: Str, sending: Task, receiving: bool)
    | PGone

  datatype State = State(agent: AgentState, proxy: ProxyState, up: Flow, down: Flow)

  function Start(k: Tunnel): State {
    State(ASendInit, PFirst, Fresh(k.initData), Fresh(None))
  }

  datatype Action =
    | AgentSendInit(id: Id, random: nat)
    | AgentFlushed
    | AgentReceive
    | AgentStart(id: Id, random: nat)
    | AgentFail
    | ClientChunk(chunk: seq<byte>)
    | AgentForward(id: Id, random: nat)
    | AgentStopSending
    | AgentClosed
    | AgentStopReceiving
    | ProxyReceive
    | ProxyConnected(connected: bool, tunnelId: Str, id: Id, random: nat)
    | ProxyFlushed
    | ProxyFail
    | DstChunk(chunk: seq<byte>)
    | ProxyForward(id: Id, random: nat)
    | ProxyStopSending
    | ProxyClosed
    | ProxyStopReceiving
    | FlushUp(n: nat)
    | DeliverUp(n: nat)
    | FlushDown(n: nat)
    | DeliverDown(n: nat)

  // ----- messages -----

  function InitMessage(k: Tunnel, id: Id): Message {
    Message(id, k.user, Aes(k.initToken), UpTcp(AgentInit(k.src, k.dst)))
  }

  function UpData(k: Tunnel, id: Id, content: seq<byte>): Message {
    Message(id, k.user, Aes(k.dataToken), UpTcp(AgentData(content)))
  }

  function ReplyMessage(k: Tunnel, id: Id, user: Str, src: Address, dst: Address, result: InitResult): Message {
    Message(id, user, Aes(k.proxyToken), DownTcp(ProxyInit(src, dst, result)))
  }

  function DownData(k: Tunnel, id: Id, user: Str, content: seq<byte>): Message {
    Message(id, user, Aes(k.proxyToken), DownTcp(ProxyData(content)))
  }

  /** Only what fits in memory is ever encoded. */
  predicate CanHold(l: Link, x: Sent) {
    Representable(l.from, l.cfg, x.message, x.random)
  }

  predicate IsSuccess(m: Message) {
    m.payload.DownTcp? && m.payload.downTcp.ProxyInit? && m.payload.downTcp.result.Success?
  }

  // ----- the agent -----

  function SendInit(k: Tunnel, s: State, id: Id, random: nat): Option<State> {
    var x := Sent(InitMessage(k, id), random);
    if !s.agent.ASendInit? || !CanHold(UpLink(k), x) then None else
    var up := Transmit(UpLink(k), s.up, x);
    Some(s.(up := up, agent := if up.torn then AFailed else AFlushInit))
  }

  function AgentSent(s: State): Option<State> {
    if s.up.out != [] then None
    else if s.agent.AFlushInit? then Some(s.(agent := AAwait))
    else if s.agent.AFlushData? then Some(s.(agent := ARelay(Sending, true)))
    else None
  }

  /** The reply must be a successful Init; later messages must be Data. */
  function AgentDecodes(k: Tunnel, s: State): Option<State> {
    var c := Decode(DownLink(k), s.down);
    match s.agent
    case AAwait =>
      var down := Receive(DownLink(k), s.down, false);
      (match c.outcome
       case Nothing => Some(s.(down := down))
       case Failed(_) => Some(s.(down := down, agent := AFailed))
       case Item(m) => Some(s.(down := down, agent := if IsSuccess(m) then AStart else AFailed)))
    case ARelay(sending, true) =>
      var down := Receive(DownLink(k), s.down, true);
      (match c.outcome
       case Nothing => Some(s.(down := down))
       case Failed(_) => Some(s.(down := down, agent := ARelay(sending, false)))
       case Item(m) => Some(s.(down := down, agent := ARelay(sending, ContentOf(m.payload).Some?))))
    case _ => None
  }

  function StartRelay(k: Tunnel, s: State, id: Id, random: nat): Option<State> {
    if !s.agent.AStart? then None else
    match s.up.pending
    case None => Some(s.(agent := ARelay(Sending, true)))
    case Some(data) =>
      var x := Sent(UpData(k, id, data), random);
      if !CanHold(UpLink(k), x) then None else
      var up := Forward(UpLink(k), s.up, x);
      Some(s.(up := up, agent := if up.torn then AFailed else AFlushData))
  }

  function AgentRelays(k: Tunnel, s: State, a: Action): Option<State> {
    if !s.agent.ARelay? then None else
    match a
    case ClientChunk(chunk) =>
      if s.agent.sending.Sending? && s.up.pending.None? && chunk != [] then Some(s.(up := TakeChunk(s.up, chunk))) else None
    case AgentForward(id, random) =>
      if !s.agent.sending.Sending? || s.up.pending.None? then None else
      var x := Sent(UpData(k, id, s.up.pending.value), random);
      if !CanHold(UpLink(k), x) then None else
      var up := Forward(UpLink(k), s.up, x);
      Some(s.(up := up, agent := if up.torn then ARelay(Closing, s.agent.receiving) else s.agent))
    case AgentStopSending =>
      if s.agent.sending.Sending? then Some(s.(agent := ARelay(Closing, s.agent.receiving))) else None
    case AgentClosed =>
      if s.agent.sending.Closing? && s.up.out == [] then Some(s.(agent := ARelay(Closed, s.agent.receiving))) else None
    case AgentStopReceiving => Some(s.(agent := ARelay(s.agent.sending, false)))
    case _ => None
  }

  // ----- the proxy -----

  /** The first message must be an Init; later ones must be Data. */
  function ProxyDecodes(k: Tunnel, s: State): Option<State> {
    var c := Decode(UpLink(k), s.up);
    match s.proxy
    case PFirst =>
      var up := Receive(UpLink(k), s.up, false);
      (match c.outcome
       case Nothing => Some(s.(up := up))
       case Failed(_) => Some(s.(up := up, proxy := PGone))
       case Item(m) =>
         match m.payload
         case UpTcp(AgentInit(src, dst)) => Some(s.(up := up, proxy := PConnect(m.user, src, dst)))
         case _ => Some(s.(up := up, proxy := PGone)))
    case PRelay(user, sending, true) =>
      var up := Receive(UpLink(k), s.up, true);
      (match c.outcome
       case Nothing => Some(s.(up := up))
       case Failed(_) => Some(s.(up := up, proxy := PRelay(user, sending, false)))
       case Item(m) => Some(s.(up := up, proxy := PRelay(user, sending, ContentOf(m.payload).Some?))))
    case _ => None
  }

  function SendReply(k: Tunnel, s: State, connected: bool, tunnelId: Str, id: Id, random: nat): Option<State> {
    if !s.proxy.PConnect? then None else
    var result := if connected then Success(tunnelId) else Fail(CanNotConnect);
    var x := Sent(ReplyMessage(k, id, s.proxy.user, s.proxy.src, s.proxy.dst, result), random);
    if !CanHold(DownLink(k), x) then None else
    var down := Transmit(DownLink(k), s.down, x);
    Some(s.(down := down, proxy := if down.torn then PGone else PReply(s.proxy.user, connected)))
  }

  function ProxySent(s: State): Option<State> {
    if !s.proxy.PReply? || s.down.out != [] then None
    else Some(s.(proxy := if s.proxy.connected then PRelay(s.proxy.user, Sending, true) else PGone))
  }

  function ProxyRelays(k: Tunnel, s: State, a: Action): Option<State> {
    if !s.proxy.PRelay? then None else
    var PRelay(user, sending, receiving) := s.proxy;
    match a
    case DstChunk(chunk) =>
      if sending.Sending? && s.down.pending.None? && chunk != [] then Some(s.(down := TakeChunk(s.down, chunk))) else None
    case ProxyForward(id, random) =>
      if !sending.Sending? || s.down.pending.None? then None else
      var x := Sent(DownData(k, id, user, s.down.pending.value), random);
      if !CanHold(DownLink(k), x) then None else
      var down := Forward(DownLink(k), s.down, x);
      Some(s.(down := down, proxy := if down.torn then PRelay(user, Closing, receiving) else s.proxy))
    case ProxyStopSending =>
      if sending.Sending? then Some(s.(proxy := PRelay(user, Closing, receiving))) else None
    case ProxyClosed =>
      if sending.Closing? && s.down.out == [] then Some(s.(proxy := PRelay(user, Closed, receiving))) else None
    case ProxyStopReceiving => Some(s.(proxy := PRelay(user, sending, false)))
    case _ => None
  }

  // ----- the network and the whole system -----

  /** A connection that was dropped flushes nothing more; what is on the wire still arrives. */
  function NetworkMoves(s: State, a: Action): Option<State> {
    match a
    case FlushUp(n) => if n <= |s.up.out| && !s.agent.AFailed? then Some(s.(up := Flush(s.up, n))) else None
    case DeliverUp(n) => if n <= |s.up.wire| then Some(s.(up := Deliver(s.up, n))) else None
    case FlushDown(n) => if n <= |s.down.out| && !s.proxy.PGone? then Some(s.(down := Flush(s.down, n))) else None
    case DeliverDown(n) => if n <= |s.down.wire| then Some(s.(down := Deliver(s.down, n))) else None
    case _ => None
  }

  /** The state after `a`, when `a` can happen in `s`. */
  function Apply(k: Tunnel, s: State, a: Action): Option<State> {
    match a
    case AgentSendInit(id, random) => SendInit(k, s, id, random)
    case AgentFlushed => AgentSent(s)
    case AgentReceive => AgentDecodes(k, s)
    case AgentStart(id, random) => StartRelay(k, s, id, random)
    case AgentFail => if s.agent.ARelay? then None else Some(s.(agent := AFailed))
    case ProxyReceive => ProxyDecodes(k, s)
    case ProxyConnected(connected, tunnelId, id, random) => SendReply(k, s, connected, tunnelId, id, random)
    case ProxyFlushed => ProxySent(s)
    case ProxyFail => if s.proxy.PRelay? then None else Some(s.(proxy := PGone))
    case FlushUp(_) => NetworkMoves(s, a)
    case DeliverUp(_) => NetworkMoves(s, a)
    case FlushDown(_) => NetworkMoves(s, a)
    case DeliverDown(_) => NetworkMoves(s, a)
    case ClientChunk(_) => AgentRelays(k, s, a)
    case AgentForward(_, _) => AgentRelays(k, s, a)
    case AgentStopSending => AgentRelays(k, s, a)
    case AgentClosed => AgentRelays(k, s, a)
    case AgentStopReceiving => AgentRelays(k, s, a)
    case DstChunk(_) => ProxyRelays(k, s, a)
    case ProxyForward(_, _) => ProxyRelays(k, s, a)
    case ProxyStopSending => ProxyRelays(k, s, a)
    case ProxyClosed => ProxyRelays(k, s, a)
    case ProxyStopReceiving => ProxyRelays(k, s, a)
  }

  /** The state after a whole run, when every step of it can happen. */
  function Run(k: Tunnel, actions: seq<Action>): Option<State>
    decreases |actions|
  {
    if actions == [] then Some(Start(k)) else
    var s :- Run(k, actions[..|actions| - 1]);
    Apply(k, s, actions[|actions| - 1])
  }

  // ----- the invariant -----

  predicate SuccessSeen(s: State) {
    |s.down.got| > 0 && IsSuccess(s.down.got[0])
  }

  /** How far the agent is, as told by what it has sent and received. */
  predicate AgentStage(k: Tunnel, s: State) {
    && (|s.up.log| > 0 ==> s.up.log[0].message.payload == UpTcp(AgentInit(k.src, k.dst)))
    && (s.agent.ASendInit? ==> s.up.log == [])
    && (s.agent.AFlushInit? || s.agent.AAwait? || s.agent.AStart? ==> |s.up.log| == 1)
    && (s.agent.AFlushData? || s.agent.ARelay? ==> |s.up.log| >= 1)
    && (s.agent.ASendInit? || s.agent.AFlushInit? || s.agent.AAwait? ==> s.down.got == [])
    && (s.agent.AStart? || s.agent.AFlushData? || s.agent.ARelay? ==> SuccessSeen(s))
    && (s.up.torn ==> s.agent.AFailed? || (s.agent.ARelay? && !s.agent.sending.Sending?))
    && (|s.up.log| > 1 ==> SuccessSeen(s))
  }

  /** The proxy works for the user, and the addresses, the agent asked for. */
  predicate ProxyServes(k: Tunnel, s: State) {
    && (s.proxy.PConnect? ==> s.proxy == PConnect(k.user, Normal(k.src), Normal(k.dst)))
    && (s.proxy.PReply? ==> s.proxy.user == k.user)
    && (s.proxy.PRelay? ==> s.proxy.user == k.user)
  }

  predicate ProxyStage(s: State) {
    && (s.proxy.PFirst? || s.proxy.PConnect? ==> s.down.log == [])
    && (s.proxy.PFirst? ==> s.up.got == [])
    && (s.proxy.PReply? ==> |s.down.log| == 1 && IsSuccess(s.down.log[0].message) == s.proxy.connected)
    && (s.proxy.PRelay? ==> |s.down.log| >= 1)
    && (s.proxy.PConnect? || s.proxy.PReply? || s.proxy.PRelay? ==> |s.up.got| >= 1)
    && (|s.down.log| > 0 ==> |s.up.got| > 0)
    && (s.down.torn ==> s.proxy.PGone? || (s.proxy.PRelay? && !s.proxy.sending.Sending?))
    && (|s.down.log| > 1 || s.proxy.PRelay? ==> |s.down.log| > 0 && IsSuccess(s.down.log[0].message))
  }

  function InitBytes(k: Tunnel): seq<byte> {
    if k.initData.Some? then k.initData.value else []
  }

  ghost predicate Inv(k: Tunnel, s: State) {
    && Good(UpLink(k), InitBytes(k), s.up) && Good(DownLink(k), [], s.down)
    && AgentStage(k, s) && ProxyStage(s) && ProxyServes(k, s)
  }

  lemma StartInv(k: Tunnel)
    ensures Inv(k, Start(k))
  {
    FreshIsGood(UpLink(k), k.initData);
    FreshIsGood(DownLink(k), None);
  }

  lemma SendInitInv(k: Tunnel, s: State, id: Id, random: nat)
    requires Conforming(k) && Inv(k, s) && SendInit(k, s, id, random).Some?
    ensures Inv(k, SendInit(k, s, id, random).value)
  {
    hide Good, Working, Resume, ParseStream, DecodeCall, Encodes, Encoded, Stub, Representable;
    TransmitInitIsGood(UpLink(k), InitBytes(k), s.up, Sent(InitMessage(k, id), random));
  }

  lemma AgentAwaitsInv(k: Tunnel, s: State)
    requires Conforming(k) && Inv(k, s) && s.agent.AAwait? && AgentDecodes(k, s).Some?
    ensures Inv(k, AgentDecodes(k, s).value)
  {
    hide Good, Working, Resume, ParseStream, DecodeCall, Encodes, Encoded, Stub, Representable;
    ReceiveIsGood(DownLink(k), [], s.down, false);
  }

  lemma AgentReadsInv(k: Tunnel, s: State)
    requires Conforming(k) && Inv(k, s) && s.agent.ARelay? && AgentDecodes(k, s).Some?
    ensures Inv(k, AgentDecodes(k, s).value)
  {
    hide Good, Working, Resume, ParseStream, DecodeCall, Encodes, Encoded, Stub, Representable;
    ReceiveIsGood(DownLink(k), [], s.down, true);
  }

  lemma AgentDecodesInv(k: Tunnel, s: State)
    requires Conforming(k) && Inv(k, s) && AgentDecodes(k, s).Some?
    ensures Inv(k, AgentDecodes(k, s).value)
  {
    assert s.agent.AAwait? || s.agent.ARelay?;
    hide AgentDecodes, Inv, Conforming;
    if s.agent.AAwait? {
      AgentAwaitsInv(k, s);
    } else {
      AgentReadsInv(k, s);
    }
  }

  lemma StartRelayInv(k: Tunnel, s: State, id: Id, random: nat)
    requires Conforming(k) && Inv(k, s) && StartRelay(k, s, id, random).Some?
    ensures Inv(k, StartRelay(k, s, id, random).value)
  {
    hide Good, Working, Resume, ParseStream, DecodeCall, Encodes, Encoded, Stub, Representable;
    if s.up.pending.Some? {
      ForwardIsGood(UpLink(k), InitBytes(k), s.up, Sent(UpData(k, id, s.up.pending.value), random));
    }
  }

  lemma AgentForwardsInv(k: Tunnel, s: State, id: Id, random: nat)
    requires Conforming(k) && Inv(k, s) && AgentRelays(k, s, AgentForward(id, random)).Some?
    ensures Inv(k, AgentRelays(k, s, AgentForward(id, random)).value)
  {
    hide Good, Working, Resume, ParseStream, DecodeCall, Encodes, Encoded, Stub, Representable;
    ForwardIsGood(UpLink(k), InitBytes(k), s.up, Sent(UpData(k, id, s.up.pending.value), random));
  }

  lemma AgentRelaysInv(k: Tunnel, s: State, a: Action)
    requires Conforming(k) && Inv(k, s) && AgentRelays(k, s, a).Some?
    ensures Inv(k, AgentRelays(k, s, a).value)
  {
    hide Good, Working, Resume, ParseStream, DecodeCall, Encodes, Encoded, Stub, Representable, Forward;
    match a
    case ClientChunk(chunk) => TakeChunkIsGood(UpLink(k), InitBytes(k), s.up, chunk);
    case AgentForward(id, random) => AgentForwardsInv(k, s, id, random);
    case _ =>
  }

  lemma ProxyDecodesInv(k: Tunnel, s: State)
    requires Conforming(k) && Inv(k, s) && ProxyDecodes(k, s).Some?
    ensures Inv(k, ProxyDecodes(k, s).value)
  {
    hide Good, Working, Resume, ParseStream, DecodeCall, Encodes, Encoded, Stub, Representable;
    ReceiveIsGood(UpLink(k), InitBytes(k), s.up, s.proxy.PRelay?);
    if Decode(UpLink(k), s.up).outcome.Item? {
      DecodedKind(UpLink(k), InitBytes(k), s.up);
    }
  }

  lemma SendReplyInv(k: Tunnel, s: State, connected: bool, tunnelId: Str, id: Id, random: nat)
    requires Conforming(k) && Inv(k, s) && SendReply(k, s, connected, tunnelId, id, random).Some?
    ensures Inv(k, SendReply(k, s, connected, tunnelId, id, random).value)
  {
    hide Good, Working, Resume, ParseStream, DecodeCall, Encodes, Encoded, Stub, Representable;
    var result := if connected then Success(tunnelId) else Fail(CanNotConnect);
    TransmitInitIsGood(DownLink(k), [], s.down,
      Sent(ReplyMessage(k, id, s.proxy.user, s.proxy.src, s.proxy.dst, result), random));
  }

  lemma ProxyRelaysInv(k: Tunnel, s: State, a: Action)
    requires Conforming(k) && Inv(k, s) && ProxyRelays(k, s, a).Some?
    ensures Inv(k, ProxyRelays(k, s, a).value)
  {
    hide Good, Working, Resume, ParseStream, DecodeCall, Encodes, Encoded, Stub, Representable;
    match a
    case DstChunk(chunk) => TakeChunkIsGood(DownLink(k), [], s.down, chunk);
    case ProxyForward(id, random) =>
      ForwardIsGood(DownLink(k), [], s.down, Sent(DownData(k, id, k.user, s.down.pending.value), random));
    case _ =>
  }

  lemma NetworkMovesInv(k: Tunnel, s: State, a: Action)
    requires Inv(k, s) && NetworkMoves(s, a).Some?
    ensures Inv(k, NetworkMoves(s, a).value)
  {
    hide Good, Working, Resume, ParseStream, DecodeCall, Encodes, Encoded, Stub, Representable;
    match a
    case FlushUp(n) => FlushIsGood(UpLink(k), InitBytes(k), s.up, n);
    case DeliverUp(n) => DeliverIsGood(UpLink(k), InitBytes(k), s.up, n);
    case FlushDown(n) => FlushIsGood(DownLink(k), [], s.down, n);
    case DeliverDown(n) => DeliverIsGood(DownLink(k), [], s.down, n);
    case _ =>
  }

  /** Steps that move no byte. */
  lemma LocalInv(k: Tunnel, s: State, t: State)
    requires Inv(k, s)
    requires t == s.(agent := AFailed) || t == s.(proxy := PGone) || AgentSent(s) == Some(t) || ProxySent(s) == Some(t)
    ensures Inv(k, t)
  {
    hide Good;
  }

  lemma ApplyInv(k: Tunnel, s: State, a: Action)
    requires Conforming(k) && Inv(k, s) && Apply(k, s, a).Some?
    ensures Inv(k, Apply(k, s, a).value)
  {
    hide Inv, Conforming, SendInit, AgentSent, AgentDecodes, StartRelay, AgentRelays;
    hide ProxySent, ProxyDecodes, SendReply, ProxyRelays, NetworkMoves;
    match a
    case AgentSendInit(id, random) => SendInitInv(k, s, id, random);
    case AgentFlushed => LocalInv(k, s, AgentSent(s).value);
    case AgentReceive => AgentDecodesInv(k, s);
    case AgentStart(id, random) => StartRelayInv(k, s, id, random);
    case AgentFail => LocalInv(k, s, s.(agent := AFailed));
    case ProxyReceive => ProxyDecodesInv(k, s);
    case ProxyConnected(connected, tunnelId, id, random) => SendReplyInv(k, s, connected, tunnelId, id, random);
    case ProxyFlushed => LocalInv(k, s, ProxySent(s).value);
    case ProxyFail => LocalInv(k, s, s.(proxy := PGone));
    case _ =>
      if a.FlushUp? || a.DeliverUp? || a.FlushDown? || a.DeliverDown? {
        NetworkMovesInv(k, s, a);
      } else if a.ClientChunk? || a.AgentForward? || a.AgentStopSending? || a.AgentClosed? || a.AgentStopReceiving? {
        AgentRelaysInv(k, s, a);
      } else {
        ProxyRelaysInv(k, s, a);
      }
  }

  lemma {:induction false} RunInv(k: Tunnel, actions: seq<Action>)
    requires Conforming(k) && Run(k, actions).Some?
    ensures Inv(k, Run(k, actions).value)
    decreases |actions|
  {
    if actions == [] {
      StartInv(k);
    } else {
      var n := |actions| - 1;
      RunInv(k, actions[..n]);
      ApplyInv(k, Run(k, actions[..n]).value, actions[n]);
    }
  }
}
