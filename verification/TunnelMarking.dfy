/**
  A tunnel whose frames do not carry the compression byte the decoder needs. As written both flags are 1,
  so this is every tunnel with an end that does not compress.
 */
module TunnelMarking {
  import opened Wrappers
  import opened Octets
  import opened Utf8
  import opened Messages
  import opened Codec
  import opened Stream
  import opened Flow
  import opened Session
  import opened TunnelOpening

  ghost predicate Mismarked(l: Link) {
    !l.cfg.MarksFaithfully() && GzipMagic(l.to.lib)
  }

  /** Nothing was decoded, and the first frame will fail. */
  predicate Dead(l: Link, f: Flow) {
    Resume(l.to, l.dir, f.status, Unread(f))
    == Parsed([], if f.log == [] then Waiting(Head, if f.torn then Stub(l.cfg) else []) else Broken(BadCompression))
  }

  lemma FreshIsDead(l: Link, pending: Option<seq<byte>>)
    ensures Dead(l, Fresh(pending))
  {
    assert Unread(Fresh(pending)) == [];
  }

  lemma MoveKeepsDead(l: Link, f: Flow, g: Flow)
    requires Dead(l, f) && Unread(g) == Unread(f) && g.status == f.status && g.log == f.log && g.torn == f.torn
    ensures Dead(l, g)
  {
  }

  lemma FlushKeepsDead(l: Link, f: Flow, n: nat)
    requires Dead(l, f) && n <= |f.out|
    ensures Dead(l, Flush(f, n))
  {
    hide Resume, ParseStream;
    Shift(f.wire, f.out, n);
    MoveKeepsDead(l, f, Flush(f, n));
  }

  lemma DeliverKeepsDead(l: Link, f: Flow, n: nat)
    requires Dead(l, f) && n <= |f.wire|
    ensures Dead(l, Deliver(f, n))
  {
    hide Resume, ParseStream;
    Shift(f.buffer, f.wire, n);
    Assoc(f.buffer, f.wire, f.out);
    Assoc(f.buffer + f.wire[..n], f.wire[n..], f.out);
    MoveKeepsDead(l, f, Deliver(f, n));
  }

  lemma ParseStub(l: Link)
    ensures ParseStream(l.to, l.dir, Stub(l.cfg)) == Parsed([], Waiting(Head, Stub(l.cfg)))
  {
  }

  /** Nothing sent after the first frame can repair the stream. */
  lemma TransmitKeepsDead(l: Link, f: Flow, x: Sent)
    requires Mismarked(l) && Dead(l, f) && (f.log == [] ==> !f.torn)
    requires Representable(l.from, l.cfg, x.message, x.random) && |x.message.id| == ID_LENGTH
    ensures Dead(l, Transmit(l, f, x))
  {
    hide Resume, ParseStream, Representable, Encoded, Encodes, Stub;
    var more := if Encodes(l.from, l.cfg, x) then Encoded(l.from, l.cfg, x) else Stub(l.cfg);
    Assoc(f.wire, f.out, more);
    Assoc(f.buffer, f.wire + f.out, more);
    ResumeAppend(l.to, l.dir, f.status, Unread(f), more);
    if f.log == [] {
      ResumeHead(l.to, l.dir, more);
      if Encodes(l.from, l.cfg, x) {
        FirstFrameFails(l.from, l.to, l.cfg, l.dir, x, []);
        assert Encoded(l.from, l.cfg, x) + [] == Encoded(l.from, l.cfg, x);
      } else {
        ParseStub(l);
      }
    }
  }

  lemma ResumeHead(e: Endpoint, dir: Direction, s: seq<byte>)
    ensures Resume(e, dir, Head, [] + s).After([]) == ParseStream(e, dir, s)
  {
    assert [] + s == s;
  }

  /** Such a stream never yields a message. */
  lemma ReceiveKeepsDead(l: Link, f: Flow, relaying: bool)
    requires Dead(l, f)
    ensures !Decode(l, f).outcome.Item?
    ensures Decode(l, f).outcome.Nothing? ==> Dead(l, Receive(l, f, relaying))
  {
    hide Resume, ParseStream, DecodeCall, Stub;
    var x := f.wire + f.out;
    CallAppend(l.to, l.dir, f.status, f.buffer, x);
    CallAgrees(l.to, l.dir, f.status, f.buffer + x);
  }

  // ----- whole runs -----

  /** The agent has not had a successful reply. */
  predicate AwaitsReply(s: State) {
    s.agent.ASendInit? || s.agent.AFlushInit? || s.agent.AAwait? || s.agent.AFailed?
  }

  /** Nothing was ever taken from the client or given to it. */
  predicate ClientUntouched(s: State) {
    s.up.read == [] && s.down.written == []
  }

  /** The request is unreadable: the proxy is still waiting for it, or gone, and has sent nothing. */
  predicate RequestUnread(k: Tunnel, s: State) {
    && AwaitsReply(s) && ClientUntouched(s)
    && (s.agent.ASendInit? ==> s.up.log == [] && !s.up.torn)
    && (s.proxy.PGone? || (s.proxy.PFirst? && Dead(UpLink(k), s.up)))
    && s.down == Fresh(None)
  }

  /** The reply is unreadable: the agent is still waiting for it, or has failed. */
  predicate ReplyUnread(k: Tunnel, s: State) {
    && AwaitsReply(s) && ClientUntouched(s)
    && (s.proxy.PFirst? || s.proxy.PConnect? ==> s.down.log == [] && !s.down.torn)
    && (s.proxy.PReply? || s.proxy.PRelay? ==> s.down.log != [])
    && (s.agent.AFailed? || Dead(DownLink(k), s.down))
  }

  lemma RequestStaysUnread(k: Tunnel, s: State, a: Action)
    requires Mismarked(UpLink(k)) && RequestUnread(k, s) && Apply(k, s, a).Some?
    ensures RequestUnread(k, Apply(k, s, a).value)
  {
    hide Dead, Transmit, Mismarked, Resume, ParseStream, DecodeCall, Encodes, Encoded, Stub, Representable;
    match a
    case AgentSendInit(id, random) =>
      if s.proxy.PFirst? {
        TransmitKeepsDead(UpLink(k), s.up, Sent(InitMessage(k, id), random));
      }
      TransmitReads(UpLink(k), s.up, Sent(InitMessage(k, id), random));
    case AgentReceive => EmptyDecode(DownLink(k), s.down);
    case ProxyReceive =>
      if s.proxy.PFirst? {
        ReceiveKeepsDead(UpLink(k), s.up, false);
      }
    case FlushUp(n) =>
      if s.proxy.PFirst? {
        FlushKeepsDead(UpLink(k), s.up, n);
      }
    case DeliverUp(n) =>
      if s.proxy.PFirst? {
        DeliverKeepsDead(UpLink(k), s.up, n);
      }
    case FlushDown(n) => assert Flush(s.down, n) == s.down;
    case DeliverDown(n) => assert Deliver(s.down, n) == s.down;
    case _ =>
  }

  lemma TransmitReads(l: Link, f: Flow, x: Sent)
    ensures var g := Transmit(l, f, x);
      g.read == f.read && g.written == f.written && g.got == f.got && (g.torn || g.log == f.log + [x])
  {
  }

  lemma EmptyDecode(l: Link, f: Flow)
    requires f == Fresh(None)
    ensures Decode(l, f).outcome.Nothing? && Receive(l, f, false) == f && Receive(l, f, true) == f
  {
  }

  lemma ReplyStaysUnread(k: Tunnel, s: State, a: Action)
    requires Mismarked(DownLink(k)) && ReplyUnread(k, s) && Apply(k, s, a).Some?
    ensures ReplyUnread(k, Apply(k, s, a).value)
  {
    hide Dead, Transmit, Mismarked, Resume, ParseStream, DecodeCall, Encodes, Encoded, Stub, Representable, SendReply, ProxyRelays;
    match a
    case AgentSendInit(id, random) => TransmitReads(UpLink(k), s.up, Sent(InitMessage(k, id), random));
    case AgentReceive =>
      if s.agent.AAwait? {
        ReceiveKeepsDead(DownLink(k), s.down, false);
      }
    case ProxyConnected(connected, tunnelId, id, random) => SendingStaysUnread(k, s, connected, tunnelId, id, random);
    case FlushDown(n) =>
      if !s.agent.AFailed? {
        FlushKeepsDead(DownLink(k), s.down, n);
      }
    case DeliverDown(n) =>
      if !s.agent.AFailed? {
        DeliverKeepsDead(DownLink(k), s.down, n);
      }
    case _ =>
      if a.DstChunk? || a.ProxyForward? || a.ProxyStopSending? || a.ProxyClosed? || a.ProxyStopReceiving? {
        RelayingStaysUnread(k, s, a);
      }
  }

  lemma SendingStaysUnread(k: Tunnel, s: State, connected: bool, tunnelId: Str, id: Id, random: nat)
    requires Mismarked(DownLink(k)) && ReplyUnread(k, s) && SendReply(k, s, connected, tunnelId, id, random).Some?
    ensures ReplyUnread(k, SendReply(k, s, connected, tunnelId, id, random).value)
  {
    hide Dead, Transmit, Mismarked, Representable;
    var result := if connected then Success(tunnelId) else Fail(CanNotConnect);
    DownTransmit(k, s, Sent(ReplyMessage(k, id, s.proxy.user, s.proxy.src, s.proxy.dst, result), random));
  }

  lemma RelayingStaysUnread(k: Tunnel, s: State, a: Action)
    requires Mismarked(DownLink(k)) && ReplyUnread(k, s) && ProxyRelays(k, s, a).Some?
    ensures ReplyUnread(k, ProxyRelays(k, s, a).value)
  {
    hide Dead, Transmit, Mismarked, Representable;
    match a
    case ProxyForward(id, random) =>
      var x := Sent(DownData(k, id, s.proxy.user, s.down.pending.value), random);
      DownTransmit(k, s, x);
      DeadForward(DownLink(k), s.down, x);
    case DstChunk(chunk) => DeadTake(DownLink(k), s.down, chunk);
    case _ =>
  }

  lemma DownTransmit(k: Tunnel, s: State, x: Sent)
    requires Mismarked(DownLink(k)) && (s.agent.AFailed? || Dead(DownLink(k), s.down))
    requires s.down.log == [] ==> !s.down.torn
    requires CanHold(DownLink(k), x) && |x.message.id| == ID_LENGTH
    ensures s.agent.AFailed? || Dead(DownLink(k), Transmit(DownLink(k), s.down, x))
    ensures var g := Transmit(DownLink(k), s.down, x);
      g.read == s.down.read && g.written == s.down.written && (g.torn || g.log == s.down.log + [x])
      && |g.log| >= |s.down.log|
  {
    hide Dead, Mismarked, Representable;
    if !s.agent.AFailed? {
      TransmitKeepsDead(DownLink(k), s.down, x);
    }
  }

  lemma DeadForward(l: Link, f: Flow, x: Sent)
    ensures Dead(l, Transmit(l, f, x)) ==> Dead(l, Forward(l, f, x))
  {
    hide Transmit, Resume, ParseStream;
  }

  lemma DeadTake(l: Link, f: Flow, chunk: seq<byte>)
    requires f.pending.None?
    ensures Dead(l, f) ==> Dead(l, TakeChunk(f, chunk))
  {
    hide Resume, ParseStream;
  }

  /** A tunnel with an end whose frames are wrongly marked never gets as far as relaying. */
  lemma {:induction false} NeverRelays(k: Tunnel, actions: seq<Action>)
    requires Mismarked(UpLink(k)) || Mismarked(DownLink(k))
    requires Run(k, actions).Some?
    ensures var s := Run(k, actions).value; AwaitsReply(s) && ClientUntouched(s)
    ensures Mismarked(UpLink(k)) ==> RequestUnread(k, Run(k, actions).value)
    ensures Mismarked(DownLink(k)) ==> ReplyUnread(k, Run(k, actions).value)
    decreases |actions|
  {
    hide Apply, Mismarked, Dead;
    if actions == [] {
      FreshIsDead(UpLink(k), k.initData);
      FreshIsDead(DownLink(k), None);
    } else {
      var n := |actions| - 1;
      NeverRelays(k, actions[..n]);
      var s := Run(k, actions[..n]).value;
      if Mismarked(UpLink(k)) {
        RequestStaysUnread(k, s, actions[n]);
      }
      if Mismarked(DownLink(k)) {
        ReplyStaysUnread(k, s, actions[n]);
      }
    }
  }

  /** The agent reaches its relay in some run. */
  predicate Relays(k: Tunnel, actions: seq<Action>) {
    Run(k, actions).Some? && Run(k, actions).value.agent.ARelay?
  }

  /**
    Between ends that hold matching keys, a tunnel whose handshake messages can be encoded can be opened
    if and only if each end compresses or marks uncompressed bodies with a flag of their own. As written
    they do not: a tunnel with an end that does not compress never opens.
   */
  lemma TunnelOpensExactly(k: Tunnel, tunnelId: Str, id: Id, random: nat)
    requires Peers(k.agent, k.proxy, k.user) && Peers(k.proxy, k.agent, k.user) && GzipMagic(k.agent.lib)
    requires Sends(UpLink(k), Sent(InitMessage(k, id), random))
    requires Sends(DownLink(k), Sent(ReplyMessage(k, id, k.user, Normal(k.src), Normal(k.dst), Success(tunnelId)), random))
    requires k.initData.Some? ==> Sends(UpLink(k), Sent(UpData(k, id, k.initData.value), random))
    ensures (exists actions :: Relays(k, actions))
       <==> k.agentConfig.MarksFaithfully() && k.proxyConfig.MarksFaithfully()
  {
    hide Run, Sends, LibraryLaws, KeyPair, GzipMagic;
    if k.agentConfig.MarksFaithfully() && k.proxyConfig.MarksFaithfully() {
      var actions, t := TunnelOpens(k, tunnelId, id, random);
      assert Relays(k, actions);
    } else {
      forall actions ensures !Relays(k, actions) {
        if Run(k, actions).Some? {
          NeverRelays(k, actions);
        }
      }
    }
  }
}
