/** What the messages of a tunnel say and how they are enciphered, in every run. */
module TunnelLogs {
  import opened Wrappers
  import opened Octets
  import opened Utf8
  import opened Messages
  import opened Cipher = Aes
  import opened Codec
  import opened Refusals
  import opened Stream
  import opened Relay
  import opened Flow
  import opened Session

  // ----- encryption -----

  /** The agent's Init goes under one token and its Data under another; all the proxy sends goes under a third. */
  predicate Tokens(k: Tunnel, s: State) {
    && (forall x :: x in s.up.log ==>
          x.message.encryption == Aes(if x.message.payload == UpTcp(AgentInit(k.src, k.dst)) then k.initToken else k.dataToken))
    && (forall x :: x in s.down.log ==> x.message.encryption == Aes(k.proxyToken))
    && (forall x :: x in s.up.log ==> Encodes(k.agent, k.agentConfig, x))
    && (forall x :: x in s.down.log ==> Encodes(k.proxy, k.proxyConfig, x))
  }

  /** What encoding, or failing to encode, `x` does to a log. */
  lemma TransmitLogs(l: Link, f: Flow, x: Sent)
    ensures Transmit(l, f, x).log == (if Encodes(l.from, l.cfg, x) then f.log + [x] else f.log)
    ensures Forward(l, f, x).log == Transmit(l, f, x).log
  {
    hide Encodes;
  }

  lemma ReceiveLogs(l: Link, f: Flow, relaying: bool)
    ensures Receive(l, f, relaying).log == f.log
  {
    hide DecodeCall;
  }

  /** Tokens of a state whose agent may have encoded `x`. */
  lemma UpGrows(k: Tunnel, s: State, t: State, x: Sent)
    requires Tokens(k, s) && t.down.log == s.down.log
    requires t.up.log == if Encodes(k.agent, k.agentConfig, x) then s.up.log + [x] else s.up.log
    requires x.message.encryption == Aes(if x.message.payload == UpTcp(AgentInit(k.src, k.dst)) then k.initToken else k.dataToken)
    ensures Tokens(k, t)
  {
    hide Encodes;
  }

  lemma DownGrows(k: Tunnel, s: State, t: State, x: Sent)
    requires Tokens(k, s) && t.up.log == s.up.log
    requires t.down.log == if Encodes(k.proxy, k.proxyConfig, x) then s.down.log + [x] else s.down.log
    requires x.message.encryption == Aes(k.proxyToken)
    ensures Tokens(k, t)
  {
    hide Encodes;
  }

  lemma SendInitTokens(k: Tunnel, s: State, id: Id, random: nat)
    requires Tokens(k, s) && SendInit(k, s, id, random).Some?
    ensures Tokens(k, SendInit(k, s, id, random).value)
  {
    hide Tokens, Encodes, Transmit, Representable;
    var x := Sent(InitMessage(k, id), random);
    TransmitLogs(UpLink(k), s.up, x);
    UpGrows(k, s, SendInit(k, s, id, random).value, x);
  }

  lemma StartRelayTokens(k: Tunnel, s: State, id: Id, random: nat)
    requires Tokens(k, s) && StartRelay(k, s, id, random).Some?
    ensures Tokens(k, StartRelay(k, s, id, random).value)
  {
    hide Encodes, Transmit, Forward, Representable;
    if s.up.pending.Some? {
      var x := Sent(UpData(k, id, s.up.pending.value), random);
      TransmitLogs(UpLink(k), s.up, x);
      UpGrows(k, s, StartRelay(k, s, id, random).value, x);
    }
  }

  lemma AgentForwardTokens(k: Tunnel, s: State, id: Id, random: nat)
    requires Tokens(k, s) && AgentRelays(k, s, AgentForward(id, random)).Some?
    ensures Tokens(k, AgentRelays(k, s, AgentForward(id, random)).value)
  {
    hide Tokens, Encodes, Transmit, Forward, Representable;
    var x := Sent(UpData(k, id, s.up.pending.value), random);
    TransmitLogs(UpLink(k), s.up, x);
    UpGrows(k, s, AgentRelays(k, s, AgentForward(id, random)).value, x);
  }

  lemma SendReplyTokens(k: Tunnel, s: State, connected: bool, tunnelId: Str, id: Id, random: nat)
    requires Tokens(k, s) && SendReply(k, s, connected, tunnelId, id, random).Some?
    ensures Tokens(k, SendReply(k, s, connected, tunnelId, id, random).value)
  {
    hide Tokens, Encodes, Transmit, Representable;
    var result := if connected then Success(tunnelId) else Fail(CanNotConnect);
    var x := Sent(ReplyMessage(k, id, s.proxy.user, s.proxy.src, s.proxy.dst, result), random);
    TransmitLogs(DownLink(k), s.down, x);
    DownGrows(k, s, SendReply(k, s, connected, tunnelId, id, random).value, x);
  }

  lemma ProxyForwardTokens(k: Tunnel, s: State, id: Id, random: nat)
    requires Tokens(k, s) && ProxyRelays(k, s, ProxyForward(id, random)).Some?
    ensures Tokens(k, ProxyRelays(k, s, ProxyForward(id, random)).value)
  {
    hide Tokens, Encodes, Transmit, Forward, Representable;
    var x := Sent(DownData(k, id, s.proxy.user, s.down.pending.value), random);
    TransmitLogs(DownLink(k), s.down, x);
    DownGrows(k, s, ProxyRelays(k, s, ProxyForward(id, random)).value, x);
  }

  predicate Encoding(a: Action) {
    a.AgentSendInit? || a.AgentStart? || a.AgentForward? || a.ProxyConnected? || a.ProxyForward?
  }

  /** Only the steps that encode a message change the logs. */
  lemma LogsStay(k: Tunnel, s: State, a: Action)
    requires Apply(k, s, a).Some? && !Encoding(a)
    ensures Apply(k, s, a).value.up.log == s.up.log && Apply(k, s, a).value.down.log == s.down.log
  {
    hide Encodes, Receive, DecodeCall, SendInit, StartRelay, SendReply;
    ReceiveLogs(DownLink(k), s.down, s.agent.ARelay?);
    ReceiveLogs(UpLink(k), s.up, s.proxy.PRelay?);
  }

  lemma StepTokens(k: Tunnel, s: State, a: Action)
    requires Tokens(k, s) && Apply(k, s, a).Some?
    ensures Tokens(k, Apply(k, s, a).value)
  {
    hide Encodes, SendInit, StartRelay, AgentRelays, SendReply, ProxyRelays;
    match a
    case AgentSendInit(id, random) => SendInitTokens(k, s, id, random);
    case AgentStart(id, random) => StartRelayTokens(k, s, id, random);
    case AgentForward(id, random) => AgentForwardTokens(k, s, id, random);
    case ProxyConnected(connected, tunnelId, id, random) => SendReplyTokens(k, s, connected, tunnelId, id, random);
    case ProxyForward(id, random) => ProxyForwardTokens(k, s, id, random);
    case _ =>
      hide Apply;
      LogsStay(k, s, a);
  }

  lemma {:induction false} RunTokens(k: Tunnel, actions: seq<Action>)
    requires Run(k, actions).Some?
    ensures Tokens(k, Run(k, actions).value)
    decreases |actions|
  {
    hide Apply, Tokens;
    if actions == [] {
      StartTokens(k);
    } else {
      var n := |actions| - 1;
      RunTokens(k, actions[..n]);
      StepTokens(k, Run(k, actions[..n]).value, actions[n]);
    }
  }

  lemma StartTokens(k: Tunnel)
    ensures Tokens(k, Start(k))
  {
  }

  /** The frame of `x` carries its payload enciphered, block by block, under `token`, wrapped for the user. */
  ghost predicate Secret(e: Endpoint, x: Sent, token: Token) {
    && Seal(e, x.message, x.random).Ok? && e.fetch(x.message.user).Keys?
    && var cm := Seal(e, x.message, x.random).value;
       && cm.encryption.Aes?
       && e.fetch(x.message.user).rsa.encrypt(token, x.random) == Some(cm.encryption.token)
       && Enciphers(e.lib.cipher, token, SerPayload(x.message.payload), cm.payload)
  }

  lemma AesIsSecret(e: Endpoint, cfg: Config, x: Sent, token: Token)
    requires Invertible(e.lib.cipher) && Encodes(e, cfg, x) && x.message.encryption == Aes(token)
    ensures Secret(e, x, token)
  {
    hide SerPayload, Enciphers, Encrypted;
    SealIsSealed(e, x.message, x.random);
  }

  /**
    In every run, between any ends, nothing is sent in the clear: every message either side has encoded is
    enciphered, the request under the agent's first token, its data under its second, the proxy's under its own.
   */
  lemma NothingInTheClear(k: Tunnel, actions: seq<Action>)
    requires Invertible(k.agent.lib.cipher) && Invertible(k.proxy.lib.cipher) && Run(k, actions).Some?
    ensures var s := Run(k, actions).value;
      && (forall x :: x in s.up.log ==>
            Secret(k.agent, x, if x.message.payload == UpTcp(AgentInit(k.src, k.dst)) then k.initToken else k.dataToken))
      && (forall x :: x in s.down.log ==> Secret(k.proxy, x, k.proxyToken))
  {
    hide Run, Secret, Encodes;
    RunTokens(k, actions);
    var s := Run(k, actions).value;
    forall x | x in s.up.log
      ensures Secret(k.agent, x, if x.message.payload == UpTcp(AgentInit(k.src, k.dst)) then k.initToken else k.dataToken)
    {
      AesIsSecret(k.agent, k.agentConfig, x,
        if x.message.payload == UpTcp(AgentInit(k.src, k.dst)) then k.initToken else k.dataToken);
    }
    forall x | x in s.down.log ensures Secret(k.proxy, x, k.proxyToken) {
      AesIsSecret(k.proxy, k.proxyConfig, x, k.proxyToken);
    }
  }

  // ----- contents -----

  /** A relay unwraps exactly the Data messages of TCP tunnels. */
  lemma ContentOfExactly(p: Payload, content: seq<byte>)
    ensures ContentOf(p) == Some(content) <==> p == UpTcp(AgentData(content)) || p == DownTcp(ProxyData(content))
  {
  }

  /** The request with the client's addresses, then Data. */
  predicate RequestThenData(k: Tunnel, log: seq<Sent>) {
    && (forall i :: 0 <= i < |log| ==> log[i].message.user == k.user)
    && (|log| > 0 ==> log[0].message.payload == UpTcp(AgentInit(k.src, k.dst)))
    && (forall i :: 1 <= i < |log| ==> log[i].message.payload.UpTcp? && log[i].message.payload.upTcp.AgentData?)
  }

  predicate IsReply(k: Tunnel, p: Payload) {
    && p.DownTcp? && p.downTcp.ProxyInit?
    && p.downTcp.src == Normal(k.src) && p.downTcp.dst == Normal(k.dst)
    && (p.downTcp.result.Success? || p.downTcp.result == Fail(CanNotConnect))
  }

  /** The reply with the addresses of the request, then Data, but only behind a success. */
  predicate ReplyThenData(k: Tunnel, log: seq<Sent>) {
    && (forall i :: 0 <= i < |log| ==> log[i].message.user == k.user)
    && (|log| > 0 ==> IsReply(k, log[0].message.payload))
    && (|log| > 1 ==> log[0].message.payload.downTcp.result.Success?)
    && (forall i :: 1 <= i < |log| ==> log[i].message.payload.DownTcp? && log[i].message.payload.downTcp.ProxyData?)
  }

  predicate RepliesFirst(k: Tunnel, s: State) {
    |s.down.log| > 0 ==> IsReply(k, s.down.log[0].message.payload)
  }

  lemma StepReplies(k: Tunnel, s: State, a: Action)
    requires ProxyServes(k, s) && ProxyStage(s) && RepliesFirst(k, s) && Apply(k, s, a).Some?
    ensures RepliesFirst(k, Apply(k, s, a).value)
  {
    hide RepliesFirst, ProxyStage, ProxyServes, SendInit, StartRelay, AgentRelays, SendReply, ProxyRelays;
    hide AgentSent, AgentDecodes, ProxySent, ProxyDecodes, NetworkMoves;
    match a
    case AgentSendInit(id, random) =>
      AgentLeavesDown(k, s, a);
      RepliesKept(k, s, Apply(k, s, a).value);
    case AgentStart(id, random) =>
      AgentLeavesDown(k, s, a);
      RepliesKept(k, s, Apply(k, s, a).value);
    case AgentForward(id, random) =>
      AgentLeavesDown(k, s, a);
      RepliesKept(k, s, Apply(k, s, a).value);
    case ProxyConnected(connected, tunnelId, id, random) => ConnectsFresh(k, s, connected, tunnelId, id, random);
    case ProxyForward(id, random) =>
      ForwardsBehind(k, s, id, random);
      RepliesKept(k, s, Apply(k, s, a).value);
    case _ =>
      hide Apply;
      LogsStay(k, s, a);
      RepliesKept(k, s, Apply(k, s, a).value);
  }

  lemma RepliesKept(k: Tunnel, s: State, t: State)
    requires RepliesFirst(k, s)
    requires t.down.log == s.down.log || (|s.down.log| > 0 && |t.down.log| > 0 && t.down.log[0] == s.down.log[0])
    ensures RepliesFirst(k, t)
  {
  }

  lemma AgentLeavesDown(k: Tunnel, s: State, a: Action)
    requires Apply(k, s, a).Some? && (a.AgentSendInit? || a.AgentStart? || a.AgentForward?)
    ensures Apply(k, s, a).value.down == s.down
  {
    hide Transmit, Forward, Representable;
  }

  lemma ConnectsFresh(k: Tunnel, s: State, connected: bool, tunnelId: Str, id: Id, random: nat)
    requires ProxyServes(k, s) && ProxyStage(s) && SendReply(k, s, connected, tunnelId, id, random).Some?
    ensures RepliesFirst(k, SendReply(k, s, connected, tunnelId, id, random).value)
  {
    hide Transmit, Representable, IsSuccess;
    assert s.down.log == [];
    hide ProxyStage, ProxyServes;
    AnswersConnect(k, s, connected, tunnelId, id, random);
  }

  lemma ForwardsBehind(k: Tunnel, s: State, id: Id, random: nat)
    requires ProxyStage(s) && ProxyRelays(k, s, ProxyForward(id, random)).Some?
    ensures var log := ProxyRelays(k, s, ProxyForward(id, random)).value.down.log;
      |s.down.log| > 0 && |log| > 0 && log[0] == s.down.log[0]
  {
    hide Encodes, Transmit, Forward, Representable, IsSuccess;
    TransmitLogs(DownLink(k), s.down, Sent(DownData(k, id, s.proxy.user, s.down.pending.value), random));
  }

  /** Connecting to the destination is answered with the tunnel's id, and failing to with that reason. */
  lemma AnswersConnect(k: Tunnel, s: State, connected: bool, tunnelId: Str, id: Id, random: nat)
    requires ProxyServes(k, s) && SendReply(k, s, connected, tunnelId, id, random).Some?
    ensures var t := SendReply(k, s, connected, tunnelId, id, random).value;
      t.down.log == s.down.log ||
      exists x: Sent ::
        && t.down.log == s.down.log + [x] && x.message.id == id && x.random == random
        && x.message.payload == DownTcp(ProxyInit(Normal(k.src), Normal(k.dst),
             if connected then Success(tunnelId) else Fail(CanNotConnect)))
  {
    hide Encodes, Encoded, Transmit, Representable;
    var result := if connected then Success(tunnelId) else Fail(CanNotConnect);
    var x := Sent(ReplyMessage(k, id, s.proxy.user, s.proxy.src, s.proxy.dst, result), random);
    TransmitLogs(DownLink(k), s.down, x);
  }

  lemma {:induction false} RunReplies(k: Tunnel, actions: seq<Action>)
    requires Conforming(k) && Run(k, actions).Some?
    ensures RepliesFirst(k, Run(k, actions).value)
    decreases |actions|
  {
    hide Apply, RepliesFirst, Good, AgentStage, ProxyStage, ProxyServes, Conforming;
    if actions == [] {
      StartReplies(k);
    } else {
      var n := |actions| - 1;
      RunReplies(k, actions[..n]);
      RunInv(k, actions[..n]);
      StepReplies(k, Run(k, actions[..n]).value, actions[n]);
    }
  }

  lemma StartReplies(k: Tunnel)
    ensures RepliesFirst(k, Start(k))
  {
  }

  /** A Data message of a faithful log is one of its direction. */
  lemma DataOf(l: Link, f: Flow, i: nat)
    requires Faithful(l, f) && i < |f.log| && ContentOf(f.log[i].message.payload).Some?
    ensures var p := f.log[i].message.payload;
      if l.dir.Up? then p.UpTcp? && p.upTcp.AgentData? else p.DownTcp? && p.downTcp.ProxyData?
  {
    hide Resume, ParseStream, Peers, Encodes, Representable;
    assert Sendable(l.from, l.to, l.cfg, l.dir, f.log[i]);
  }

  /**
    In every run the agent sends the request with the client's source and destination and then only Data; the
    proxy sends one reply, a success or that it can not connect, with the same addresses, and Data only
    behind a success; both for the tunnel's user.
   */
  lemma LogsSay(k: Tunnel, actions: seq<Action>)
    requires Conforming(k) && Run(k, actions).Some?
    ensures var s := Run(k, actions).value; RequestThenData(k, s.up.log) && ReplyThenData(k, s.down.log)
  {
    hide Run, Faithful, Conserved, ContentOf, Conforming, ProxyServes;
    RunInv(k, actions);
    RunReplies(k, actions);
    var s := Run(k, actions).value;
    forall i | 1 <= i < |s.up.log| ensures s.up.log[i].message.payload.UpTcp? && s.up.log[i].message.payload.upTcp.AgentData? {
      DataOf(UpLink(k), s.up, i);
    }
    forall i | 1 <= i < |s.down.log| ensures s.down.log[i].message.payload.DownTcp? && s.down.log[i].message.payload.downTcp.ProxyData? {
      DataOf(DownLink(k), s.down, i);
    }
  }

  // ----- flushing -----

  /** The agent waits for the reply, and the proxy relays, only behind a flushed connection; so does closing. */
  predicate Flushed(s: State) {
    && (s.agent.AAwait? || s.agent.AStart? ==> s.up.out == [])
    && (s.agent.ARelay? && s.agent.sending.Closed? ==> s.up.out == [])
    && (s.proxy.PRelay? && |s.down.log| <= 1 && !s.down.torn ==> s.down.out == [])
    && (s.proxy.PRelay? && s.proxy.sending.Closed? ==> s.down.out == [])
  }

  lemma StepFlushed(k: Tunnel, s: State, a: Action)
    requires Flushed(s) && ProxyStage(s) && Apply(k, s, a).Some?
    ensures Flushed(Apply(k, s, a).value)
  {
    hide AgentSent, AgentDecodes, ProxySent, ProxyDecodes, NetworkMoves, SendInit, StartRelay, AgentRelays, SendReply;
    hide ProxyRelays, ProxyStage, Flushed;
    if a.AgentSendInit? || a.AgentFlushed? || a.AgentReceive? || a.AgentStart? || a.AgentFail? {
      OpeningFlushed(k, s, a);
    } else if a.ClientChunk? || a.AgentForward? || a.AgentStopSending? || a.AgentClosed? || a.AgentStopReceiving? {
      AgentRelaysFlushed(k, s, a);
    } else if a.FlushUp? || a.DeliverUp? || a.FlushDown? || a.DeliverDown? {
      NetworkFlushed(k, s, a);
    } else if a.ProxyReceive? || a.ProxyConnected? || a.ProxyFlushed? || a.ProxyFail? {
      ProxyOpensFlushed(k, s, a);
    } else {
      ProxyRelaysFlushed(k, s, a);
    }
  }

  lemma OpeningFlushed(k: Tunnel, s: State, a: Action)
    requires Flushed(s) && Apply(k, s, a).Some?
    requires a.AgentSendInit? || a.AgentFlushed? || a.AgentReceive? || a.AgentStart? || a.AgentFail?
    ensures Flushed(Apply(k, s, a).value)
  {
    hide Encodes, Encoded, Stub, DecodeCall, Representable, IsSuccess;
  }

  lemma AgentRelaysFlushed(k: Tunnel, s: State, a: Action)
    requires Flushed(s) && AgentRelays(k, s, a).Some?
    ensures Flushed(AgentRelays(k, s, a).value)
  {
    hide Transmit, Forward, Representable;
  }

  lemma NetworkFlushed(k: Tunnel, s: State, a: Action)
    requires Flushed(s) && NetworkMoves(s, a).Some?
    ensures Flushed(NetworkMoves(s, a).value)
  {
  }

  lemma ProxyOpensFlushed(k: Tunnel, s: State, a: Action)
    requires Flushed(s) && Apply(k, s, a).Some?
    requires a.ProxyReceive? || a.ProxyConnected? || a.ProxyFlushed? || a.ProxyFail?
    ensures Flushed(Apply(k, s, a).value)
  {
    hide Encodes, Encoded, Stub, DecodeCall, Representable;
  }

  lemma ProxyRelaysFlushed(k: Tunnel, s: State, a: Action)
    requires Flushed(s) && ProxyStage(s) && ProxyRelays(k, s, a).Some?
    ensures Flushed(ProxyRelays(k, s, a).value)
  {
    hide Encodes, Encoded, Stub, Representable, IsSuccess;
  }

  lemma {:induction false} FlushedInRuns(k: Tunnel, actions: seq<Action>)
    requires Conforming(k) && Run(k, actions).Some?
    ensures Flushed(Run(k, actions).value)
    decreases |actions|
  {
    hide Apply, Flushed, Good, AgentStage, ProxyStage, ProxyServes, Conforming;
    if actions == [] {
      StartFlushed(k);
    } else {
      var n := |actions| - 1;
      FlushedInRuns(k, actions[..n]);
      RunInv(k, actions[..n]);
      StepFlushed(k, Run(k, actions[..n]).value, actions[n]);
    }
  }

  lemma StartFlushed(k: Tunnel)
    ensures Flushed(Start(k))
  {
  }
}
