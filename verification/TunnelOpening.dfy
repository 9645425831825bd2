/** A tunnel between conforming endpoints can be opened: the handshake steps reach the relay on both sides. */
module TunnelOpening {
  import opened Wrappers
  import opened Octets
  import opened Utf8
  import opened Messages
  import opened Codec
  import opened Stream
  import opened Relay
  import opened Flow
  import opened Session
  import opened TunnelSafety

  /** `x` can be encoded and held in memory. */
  predicate Sends(l: Link, x: Sent) {
    Encodes(l.from, l.cfg, x) && CanHold(l, x)
  }

  /** The request reaches the proxy, which starts to connect to the requested destination. */
  lemma RequestArrives(k: Tunnel, id: Id, random: nat) returns (actions: seq<Action>, t: State)
    requires Conforming(k) && Sends(UpLink(k), Sent(InitMessage(k, id), random))
    ensures Run(k, actions) == Some(t)
    ensures t.proxy == PConnect(k.user, Normal(k.src), Normal(k.dst)) && t.down == Fresh(None)
    ensures t.agent == AAwait && t.up.pending == k.initData && t.up.read == [] && !t.up.torn
  {
    hide Run, Frame, Encoded, Stub, Resume, ParseStream, DecodeCall, Good, Faithful, Working, Representable;
    var a: seq<Action> := [];
    assert Run(k, a) == Some(Start(k)) by {
      StartRun(k);
    }
    a, t := Next(k, a, AgentSendInit(id, random));
    a, t := Carry(k, a, Up);
    a, t := Next(k, a, AgentFlushed);
    RunInv(k, a);
    assert Faithful(UpLink(k), t.up) by {
      GoodIsFaithful(UpLink(k), InitBytes(k), t.up);
    }
    DecodeReady(UpLink(k), t.up);
    ExitsUnreachable(k, a);
    a, t := Next(k, a, ProxyReceive);
    RunInv(k, a);
    actions := a;
  }

  lemma StartRun(k: Tunnel)
    ensures Run(k, []) == Some(Start(k))
  {
  }

  lemma GoodIsFaithful(l: Link, initial: seq<byte>, f: Flow)
    requires Good(l, initial, f)
    ensures Faithful(l, f)
  {
  }

  /** A success reply that has reached the agent is taken. */
  lemma TakesReply(k: Tunnel, s: State)
    requires Good(DownLink(k), [], s.down) && s.down.out == [] && s.down.wire == []
    requires s.agent.AAwait? && s.down.got == [] && |s.down.log| == 1 && IsSuccess(s.down.log[0].message)
    ensures var t := Apply(k, s, AgentReceive);
      t.Some? && t.value.agent == AStart && t.value.up == s.up && t.value.proxy == s.proxy
  {
    hide Resume, ParseStream, DecodeCall, Good, Faithful, Representable;
    GoodIsFaithful(DownLink(k), [], s.down);
    DecodeReady(DownLink(k), s.down);
    DecodedKind(DownLink(k), [], s.down);
  }

  /** The reply of a connected proxy reaches the agent, which takes it as a success. */
  lemma ReplyArrives(k: Tunnel, before: seq<Action>, tunnelId: Str, id: Id, random: nat)
    returns (actions: seq<Action>, t: State)
    requires Conforming(k) && Run(k, before).Some?
    requires var s := Run(k, before).value;
      && s.proxy == PConnect(k.user, Normal(k.src), Normal(k.dst)) && s.down == Fresh(None) && s.agent == AAwait
    requires Sends(DownLink(k), Sent(ReplyMessage(k, id, k.user, Normal(k.src), Normal(k.dst), Success(tunnelId)), random))
    ensures Run(k, actions) == Some(t)
    ensures t.up == Run(k, before).value.up && t.agent == AStart && t.proxy == PRelay(k.user, Sending, true)
  {
    hide Run, Frame, Encoded, Stub, Resume, ParseStream, DecodeCall, Good, Faithful, Working, Representable;
    var a := before;
    a, t := Next(k, a, ProxyConnected(true, tunnelId, id, random));
    a, t := Carry(k, a, Down);
    a, t := Next(k, a, ProxyFlushed);
    RunInv(k, a);
    TakesReply(k, t);
    actions, t := Next(k, a, AgentReceive);
  }

  /** The agent sends the initial data, if there is any, and relays. */
  lemma RelayStarts(k: Tunnel, before: seq<Action>, id: Id, random: nat) returns (actions: seq<Action>, t: State)
    requires Conforming(k) && Run(k, before).Some?
    requires var s := Run(k, before).value;
      s.agent == AStart && s.up.pending == k.initData && s.up.read == [] && !s.up.torn
    requires k.initData.Some? ==> Sends(UpLink(k), Sent(UpData(k, id, k.initData.value), random))
    ensures Run(k, actions) == Some(t)
    ensures t.agent == ARelay(Sending, true) && t.proxy == Run(k, before).value.proxy
    ensures t.up.pending == None && t.up.read == []
  {
    hide Run, Frame, Encoded, Resume, ParseStream, DecodeCall, Representable;
    actions, t := Next(k, before, AgentStart(id, random));
    if k.initData.Some? {
      actions, t := Carry(k, actions, Up);
      actions, t := Next(k, actions, AgentFlushed);
    }
  }

  /**
    Every tunnel whose handshake messages can be encoded opens: some run takes both sides to their relays,
    with the initial data, if any, as the first and only tunnelled bytes sent.
   */
  lemma TunnelOpens(k: Tunnel, tunnelId: Str, id: Id, random: nat) returns (actions: seq<Action>, t: State)
    requires Conforming(k) && Sends(UpLink(k), Sent(InitMessage(k, id), random))
    requires Sends(DownLink(k), Sent(ReplyMessage(k, id, k.user, Normal(k.src), Normal(k.dst), Success(tunnelId)), random))
    requires k.initData.Some? ==> Sends(UpLink(k), Sent(UpData(k, id, k.initData.value), random))
    ensures Run(k, actions) == Some(t)
    ensures t.agent == ARelay(Sending, true) && t.proxy == PRelay(k.user, Sending, true)
    ensures t.up.pending == None && LogBytes(t.up.log) == InitBytes(k)
  {
    hide Run, Sends;
    actions, t := RequestArrives(k, id, random);
    actions, t := ReplyArrives(k, actions, tunnelId, id, random);
    actions, t := RelayStarts(k, actions, id, random);
    RunInv(k, actions);
    OpenedBytes(UpLink(k), InitBytes(k), t.up);
  }

  lemma OpenedBytes(l: Link, initial: seq<byte>, f: Flow)
    requires Good(l, initial, f) && f.pending == None && f.read == []
    ensures LogBytes(f.log) == initial
  {
    assert LogBytes(f.log) + [] == LogBytes(f.log) && initial + [] == initial;
  }
}
