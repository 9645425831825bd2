/** What holds in every run of a tunnel between conforming endpoints. */
module TunnelSafety {
  import opened Wrappers
  import opened Octets
  import opened Messages
  import opened Codec
  import opened Stream
  import opened Relay
  import opened Flow
  import opened Session

  /**
    End-to-end conservation, in both directions and at every step: what the far end has written, the
    contents of the frames in its decode buffer, on the wire and in the write buffer, and the chunk not
    yet encoded are, in this order, exactly what was read. So the far end always has a prefix of it.
   */
  lemma Conservation(k: Tunnel, actions: seq<Action>)
    requires Conforming(k) && Run(k, actions).Some?
    ensures var s := Run(k, actions).value;
      && s.up.written + Bytes(InFlight(UpLink(k), s.up)) + Unsent(s.up) == InitBytes(k) + s.up.read
      && s.up.written <= InitBytes(k) + s.up.read
      && s.down.written + Bytes(InFlight(DownLink(k), s.down)) + Unsent(s.down) == s.down.read
      && s.down.written <= s.down.read
  {
    hide Good, Run, InFlight;
    RunInv(k, actions);
    var s := Run(k, actions).value;
    FlowConservation(UpLink(k), InitBytes(k), s.up);
    FlowConservation(DownLink(k), [], s.down);
    assert [] + s.down.read == s.down.read;
  }

  /** A direction whose write buffer and wire are empty and whose decoder waits has delivered everything encoded. */
  predicate Settled(f: Flow) {
    f.out == [] && f.wire == [] && Waits(f.status, f.buffer)
  }

  /**
    A settled direction has written everything read but a chunk that was never encoded. What is left in
    the decoder's buffer is nothing, or the 11 bytes of an encode that failed: they never decode.
   */
  lemma SettledIsComplete(k: Tunnel, actions: seq<Action>)
    requires Conforming(k) && Run(k, actions).Some?
    ensures var s := Run(k, actions).value;
      && (Settled(s.up) ==> s.up.written + Unsent(s.up) == InitBytes(k) + s.up.read)
      && (Settled(s.up) ==> s.up.buffer == if s.up.torn then Stub(k.agentConfig) else [])
      && (Settled(s.down) ==> s.down.written + Unsent(s.down) == s.down.read)
      && (Settled(s.down) ==> s.down.buffer == if s.down.torn then Stub(k.proxyConfig) else [])
  {
    hide Good, Run;
    RunInv(k, actions);
    var s := Run(k, actions).value;
    if Settled(s.up) {
      FlowDrained(UpLink(k), InitBytes(k), s.up);
    }
    if Settled(s.down) {
      FlowDrained(DownLink(k), [], s.down);
      assert [] + s.down.read == s.down.read;
    }
  }

  /**
    Each direction carries exactly one Init, first. The agent sends Data only after it has received a
    successful reply; the proxy replies only after it has received the request, and sends Data only
    after replying with success.
   */
  lemma SessionOrder(k: Tunnel, actions: seq<Action>)
    requires Conforming(k) && Run(k, actions).Some?
    ensures var s := Run(k, actions).value;
      && Ordered(UpLink(k), s.up.log) && Ordered(DownLink(k), s.down.log)
      && (|s.up.log| > 1 ==> SuccessSeen(s))
      && (|s.down.log| > 0 ==> |s.up.got| > 0)
      && (|s.down.log| > 1 ==> IsSuccess(s.down.log[0].message))
  {
    hide Run, Faithful, Conserved;
    RunInv(k, actions);
  }

  /**
    No decode fails, the proxy's first message is the agent's request, the agent's first is the reply,
    and every message a relay decodes is Data: the exits for other messages are never taken.
   */
  lemma ExitsUnreachable(k: Tunnel, actions: seq<Action>)
    requires Conforming(k) && Run(k, actions).Some?
    ensures var s := Run(k, actions).value;
      var up, down := Decode(UpLink(k), s.up).outcome, Decode(DownLink(k), s.down).outcome;
      && !up.Failed? && !down.Failed?
      && (up.Item? && s.proxy.PFirst? ==> up.message.payload == UpTcp(AgentInit(Normal(k.src), Normal(k.dst))))
      && (up.Item? && s.proxy.PRelay? ==> ContentOf(up.message.payload).Some?)
      && (down.Item? && s.agent.AAwait? ==> IsInit(down.message.payload))
      && (down.Item? && s.agent.ARelay? ==> ContentOf(down.message.payload).Some?)
  {
    hide Run, Resume, ParseStream, DecodeCall, Conserved;
    RunInv(k, actions);
    var s := Run(k, actions).value;
    DecodeFinds(UpLink(k), s.up);
    DecodeFinds(DownLink(k), s.down);
    if Decode(UpLink(k), s.up).outcome.Item? {
      DecodedKind(UpLink(k), InitBytes(k), s.up);
    }
    if Decode(DownLink(k), s.down).outcome.Item? {
      DecodedKind(DownLink(k), [], s.down);
    }
  }

  // ----- the two relay tasks of each side -----

  predicate ReadsOrStops(a: Action) {
    a.AgentReceive? || a.AgentStopReceiving? || a.ProxyReceive? || a.ProxyStopReceiving?
  }

  predicate SendsOrStops(a: Action) {
    a.AgentForward? || a.AgentStopSending? || a.AgentClosed? || a.ProxyForward? || a.ProxyStopSending? || a.ProxyClosed?
  }

  lemma AgentTasks(k: Tunnel, s: State, a: Action)
    requires Apply(k, s, a).Some? && s.agent.ARelay?
    ensures var t := Apply(k, s, a).value;
      && t.agent.ARelay?
      && (!ReadsOrStops(a) ==> t.agent.receiving == s.agent.receiving)
      && (!SendsOrStops(a) ==> t.agent.sending == s.agent.sending)
  {
    hide Transmit, Forward, Receive, Representable, DecodeCall, ProxyDecodes, SendReply, ProxyRelays;
    ProxyKeepsAgent(k, s, a);
  }

  lemma ProxyTasks(k: Tunnel, s: State, a: Action)
    requires Apply(k, s, a).Some? && s.proxy.PRelay?
    ensures var t := Apply(k, s, a).value;
      && t.proxy.PRelay? && t.proxy.user == s.proxy.user
      && (!ReadsOrStops(a) ==> t.proxy.receiving == s.proxy.receiving)
      && (!SendsOrStops(a) ==> t.proxy.sending == s.proxy.sending)
  {
    hide Transmit, Forward, Receive, Representable, DecodeCall, SendInit, AgentDecodes, StartRelay, AgentRelays;
    AgentKeepsProxy(k, s, a);
  }

  predicate OfAgent(a: Action) {
    || a.AgentSendInit? || a.AgentFlushed? || a.AgentReceive? || a.AgentStart? || a.AgentFail? || a.ClientChunk?
    || a.AgentForward? || a.AgentStopSending? || a.AgentClosed? || a.AgentStopReceiving?
  }

  lemma AgentKeepsProxy(k: Tunnel, s: State, a: Action)
    requires Apply(k, s, a).Some?
    ensures OfAgent(a) ==> Apply(k, s, a).value.proxy == s.proxy
  {
    hide Transmit, Forward, Receive, Representable, DecodeCall, ProxyDecodes, SendReply, ProxyRelays;
  }

  lemma ProxyKeepsAgent(k: Tunnel, s: State, a: Action)
    requires Apply(k, s, a).Some?
    ensures !OfAgent(a) ==> Apply(k, s, a).value.agent == s.agent
  {
    hide Transmit, Forward, Receive, Representable, DecodeCall, SendInit, AgentDecodes, StartRelay, AgentRelays;
  }

  /** Once relaying, a side keeps relaying, and its two tasks end on their own: neither stops the other or the peer's. */
  lemma TasksAreIndependent(k: Tunnel, s: State, a: Action)
    requires Apply(k, s, a).Some?
    ensures var t := Apply(k, s, a).value;
      && (s.agent.ARelay? ==> t.agent.ARelay?)
      && (s.agent.ARelay? && !ReadsOrStops(a) ==> t.agent.receiving == s.agent.receiving)
      && (s.agent.ARelay? && !SendsOrStops(a) ==> t.agent.sending == s.agent.sending)
      && (s.proxy.PRelay? ==> t.proxy.PRelay? && t.proxy.user == s.proxy.user)
      && (s.proxy.PRelay? && !ReadsOrStops(a) ==> t.proxy.receiving == s.proxy.receiving)
      && (s.proxy.PRelay? && !SendsOrStops(a) ==> t.proxy.sending == s.proxy.sending)
      && (t.agent == s.agent || t.proxy == s.proxy)
  {
    hide Apply, ReadsOrStops, SendsOrStops, OfAgent;
    if s.agent.ARelay? {
      AgentTasks(k, s, a);
    }
    if s.proxy.PRelay? {
      ProxyTasks(k, s, a);
    }
    AgentKeepsProxy(k, s, a);
    ProxyKeepsAgent(k, s, a);
  }

  /** Each task can end at any time: its source or its sink may fail. */
  lemma TasksCanEnd(k: Tunnel, s: State)
    ensures s.agent.ARelay? ==> Apply(k, s, AgentStopReceiving) == Some(s.(agent := ARelay(s.agent.sending, false)))
    ensures s.agent.ARelay? && s.agent.sending.Sending? ==>
      Apply(k, s, AgentStopSending) == Some(s.(agent := ARelay(Closing, s.agent.receiving)))
    ensures s.proxy.PRelay? ==> Apply(k, s, ProxyStopReceiving) == Some(s.(proxy := PRelay(s.proxy.user, s.proxy.sending, false)))
    ensures s.proxy.PRelay? && s.proxy.sending.Sending? ==>
      Apply(k, s, ProxyStopSending) == Some(s.(proxy := PRelay(s.proxy.user, Closing, s.proxy.receiving)))
  {
  }

  // ----- draining is always possible -----

  function FlowOf(s: State, d: Direction): Flow {
    if d.Up? then s.up else s.down
  }

  /** The writer of direction `d` has not dropped its connection. */
  predicate WriterOpen(s: State, d: Direction) {
    if d.Up? then !s.agent.AFailed? else !s.proxy.PGone?
  }

  /** The relay task that reads direction `d` is running. */
  predicate ReaderRuns(s: State, d: Direction) {
    if d.Up? then s.proxy.PRelay? && s.proxy.receiving else s.agent.ARelay? && s.agent.receiving
  }

  /** `t` has the same bytes read, pending and encoded as `s` in direction `d`. */
  predicate SameSource(s: State, t: State, d: Direction) {
    var f, g := FlowOf(s, d), FlowOf(t, d);
    g.read == f.read && g.pending == f.pending && g.log == f.log
  }

  function TotalRead(k: Tunnel, s: State, d: Direction): seq<byte> {
    if d.Up? then InitBytes(k) + s.up.read else s.down.read
  }

  lemma RunSnoc(k: Tunnel, actions: seq<Action>, a: Action)
    requires Run(k, actions).Some? && Apply(k, Run(k, actions).value, a).Some?
    ensures Run(k, actions + [a]) == Apply(k, Run(k, actions).value, a)
  {
    hide Apply;
    assert (actions + [a])[..|actions|] == actions;
  }

  /** Receiving until the decoder waits writes out everything that has reached it. */
  lemma {:induction false} ReceiveAll(k: Tunnel, actions: seq<Action>, d: Direction) returns (more: seq<Action>)
    requires Conforming(k) && Run(k, actions).Some?
    requires var s := Run(k, actions).value;
      ReaderRuns(s, d) && FlowOf(s, d).out == [] && FlowOf(s, d).wire == []
    ensures Run(k, actions + more).Some?
    ensures var s, t := Run(k, actions).value, Run(k, actions + more).value;
      SameSource(s, t, d) && Settled(FlowOf(t, d))
    decreases var f := FlowOf(Run(k, actions).value, d); Measure(f.status, f.buffer)
  {
    hide Run, Resume, ParseStream, DecodeCall;
    var s := Run(k, actions).value;
    var link, a := if d.Up? then UpLink(k) else DownLink(k), if d.Up? then ProxyReceive else AgentReceive;
    ExitsUnreachable(k, actions);
    DecodeCallShape(link.to, link.dir, FlowOf(s, d).status, FlowOf(s, d).buffer);
    RunSnoc(k, actions, a);
    if Decode(link, FlowOf(s, d)).outcome.Nothing? {
      more := [a];
    } else {
      var rest := ReceiveAll(k, actions + [a], d);
      more := [a] + rest;
      assert actions + more == actions + [a] + rest;
    }
  }

  function FlushAction(d: Direction, n: nat): Action {
    if d.Up? then FlushUp(n) else FlushDown(n)
  }

  function DeliverAction(d: Direction, n: nat): Action {
    if d.Up? then DeliverUp(n) else DeliverDown(n)
  }

  /** One more step of a run. */
  lemma Next(k: Tunnel, actions: seq<Action>, a: Action) returns (more: seq<Action>, t: State)
    requires Run(k, actions).Some? && Apply(k, Run(k, actions).value, a).Some?
    ensures more == actions + [a] && Run(k, more) == Some(t) && Apply(k, Run(k, actions).value, a) == Some(t)
  {
    RunSnoc(k, actions, a);
    more, t := actions + [a], Apply(k, Run(k, actions).value, a).value;
  }

  /** Flushing and delivering all of a direction's bytes. */
  lemma Carry(k: Tunnel, actions: seq<Action>, d: Direction) returns (more: seq<Action>, t: State)
    requires Run(k, actions).Some? && WriterOpen(Run(k, actions).value, d)
    ensures actions <= more && Run(k, more) == Some(t)
    ensures var s := Run(k, actions).value;
      && t.agent == s.agent && t.proxy == s.proxy
      && t == (if d.Up? then s.(up := t.up) else s.(down := t.down))
      && FlowOf(t, d) == FlowOf(s, d).(out := [], wire := [], buffer := FlowOf(t, d).buffer)
  {
    hide Run;
    var s1, a1;
    a1, s1 := Next(k, actions, FlushAction(d, |FlowOf(Run(k, actions).value, d).out|));
    more, t := Next(k, a1, DeliverAction(d, |FlowOf(s1, d).wire|));
  }

  /**
    While the writer's connection is open and the reader is relaying, some continuation of the run
    delivers everything that was encoded: no reachable state has lost, or is stuck on, a byte.
   */
  lemma DrainIsPossible(k: Tunnel, actions: seq<Action>, d: Direction) returns (more: seq<Action>)
    requires Conforming(k) && Run(k, actions).Some?
    requires WriterOpen(Run(k, actions).value, d) && ReaderRuns(Run(k, actions).value, d)
    ensures Run(k, actions + more).Some?
    ensures var s, t := Run(k, actions).value, Run(k, actions + more).value;
      && SameSource(s, t, d)
      && FlowOf(t, d).written + Unsent(FlowOf(s, d)) == TotalRead(k, s, d)
  {
    hide Run, Resume, ParseStream, DecodeCall, Encodes, Encoded, Stub, Representable, Frame, Conforming;
    var carried, s1 := Carry(k, actions, d);
    var rest := ReceiveAll(k, carried, d);
    more := carried[|actions|..] + rest;
    assert actions + more == carried + rest;
    SettledIsComplete(k, actions + more);
  }
}
