/**
  The state of one direction of a tunnel and the steps that change it, with the invariant every step
  keeps. A direction first carries one Init message and then only Data messages.
 */
module Flow {
  import opened Wrappers
  import opened Octets
  import opened Utf8
  import opened Messages
  import opened Codec
  import opened Stream
  import opened Relay

  /** Who encodes and who decodes. */
  datatype Link = Link(from: Endpoint, to: Endpoint, cfg: Config, dir: Direction, user: Str)

  ghost predicate Working(l: Link) {
    Peers(l.from, l.to, l.user) && l.cfg.MarksFaithfully()
  }

  datatype Flow = Flow(
    out: seq<byte>,        // the encoder's write buffer
    wire: seq<byte>,       // flushed, not yet read by the peer
    buffer: seq<byte>,     // the decoder's read buffer
    status: Status,        // the decoder's status
    log: seq<Sent>,        // messages encoded so far
    torn: bool,            // an encode failed part-way
    got: seq<Message>,     // messages decoded so far
    pending: Option<seq<byte>>,  // read from the source, not yet encoded
    read: seq<byte>,       // everything read from the source by the relay
    written: seq<byte>)    // everything written to the sink by the relay

  function Fresh(pending: Option<seq<byte>>): Flow {
    Flow([], [], [], Head, [], false, [], pending, [], [])
  }

  /** Bytes the decoder has not looked at yet, in the order it will see them. */
  function Unread(f: Flow): seq<byte> {
    f.buffer + (f.wire + f.out)
  }

  function Unsent(f: Flow): seq<byte> {
    if f.pending.Some? then f.pending.value else []
  }

  // ----- steps -----

  /** Encoding `x` appends its frame, or the stub of a frame when encoding fails. */
  function Transmit(l: Link, f: Flow, x: Sent): Flow {
    if Encodes(l.from, l.cfg, x) then f.(out := f.out + Encoded(l.from, l.cfg, x), log := f.log + [x])
    else f.(out := f.out + Stub(l.cfg), torn := true)
  }

  function Flush(f: Flow, n: nat): Flow
    requires n <= |f.out|
  {
    f.(out := f.out[n..], wire := f.wire + f.out[..n])
  }

  function Deliver(f: Flow, n: nat): Flow
    requires n <= |f.wire|
  {
    f.(wire := f.wire[n..], buffer := f.buffer + f.wire[..n])
  }

  function Decode(l: Link, f: Flow): Call {
    DecodeCall(l.to, l.dir, f.status, f.buffer)
  }

  /** One call of the decoder; a relay also writes out what it unwraps. */
  function Receive(l: Link, f: Flow, relaying: bool): Flow {
    var c := Decode(l, f);
    match c.outcome
    case Item(m) =>
      f.(status := c.status, buffer := c.buffer, got := f.got + [m],
         written := if relaying then f.written + Carried(m) else f.written)
    case _ => f.(status := c.status, buffer := c.buffer)
  }

  function TakeChunk(f: Flow, chunk: seq<byte>): Flow
    requires f.pending.None?
  {
    f.(pending := Some(chunk), read := f.read + chunk)
  }

  // ----- the invariant -----

  predicate IsInit(p: Payload) {
    match p
    case UpTcp(AgentInit(_, _)) => true
    case DownTcp(ProxyInit(_, _, _)) => true
    case _ => false
  }

  /** An Init first, Data after it, all for the same user. */
  predicate Ordered(l: Link, log: seq<Sent>) {
    && (|log| > 0 ==> IsInit(log[0].message.payload))
    && (forall i :: 1 <= i < |log| ==> ContentOf(log[i].message.payload).Some?)
    && (forall i :: 0 <= i < |log| ==> log[i].message.user == l.user)
  }

  /** The unread bytes are exactly the frames not yet decoded, with the stub of a torn one behind them. */
  ghost predicate Faithful(l: Link, f: Flow) {
    && AllSendable(l.from, l.to, l.cfg, l.dir, f.log)
    && |f.got| <= |f.log|
    && f.got == ArrivingAll(l.from, f.log)[..|f.got|]
    && Resume(l.to, l.dir, f.status, Unread(f))
       == Parsed(ArrivingAll(l.from, f.log)[|f.got|..], Waiting(Head, if f.torn then Stub(l.cfg) else []))
  }

  predicate Conserved(initial: seq<byte>, f: Flow) {
    LogBytes(f.log) + Unsent(f) == initial + f.read && f.written == Bytes(f.got)
  }

  ghost predicate Good(l: Link, initial: seq<byte>, f: Flow) {
    Faithful(l, f) && Ordered(l, f.log) && Conserved(initial, f)
  }

  lemma FreshIsGood(l: Link, pending: Option<seq<byte>>)
    ensures Good(l, Unsent(Fresh(pending)), Fresh(pending))
  {
    assert Unread(Fresh(pending)) == [];
  }

  lemma MoveKeepsFaith(l: Link, f: Flow, g: Flow)
    requires Faithful(l, f) && Unread(g) == Unread(f)
    requires g.status == f.status && g.log == f.log && g.torn == f.torn && g.got == f.got
    ensures Faithful(l, g)
  {
  }

  /** Moving the front of one buffer to the back of the one before it. */
  lemma Shift(a: seq<byte>, b: seq<byte>, n: nat)
    requires n <= |b|
    ensures a + b[..n] + b[n..] == a + b
  {
    assert b == b[..n] + b[n..];
  }

  lemma FlushIsGood(l: Link, initial: seq<byte>, f: Flow, n: nat)
    requires Good(l, initial, f) && n <= |f.out|
    ensures Good(l, initial, Flush(f, n))
  {
    hide Resume, ParseStream;
    Shift(f.wire, f.out, n);
    MoveKeepsFaith(l, f, Flush(f, n));
  }

  lemma DeliverIsGood(l: Link, initial: seq<byte>, f: Flow, n: nat)
    requires Good(l, initial, f) && n <= |f.wire|
    ensures Good(l, initial, Deliver(f, n))
  {
    hide Resume, ParseStream;
    Shift(f.buffer, f.wire, n);
    Assoc(f.buffer, f.wire, f.out);
    Assoc(f.buffer + f.wire[..n], f.wire[n..], f.out);
    MoveKeepsFaith(l, f, Deliver(f, n));
  }

  lemma TakeChunkConserves(initial: seq<byte>, f: Flow, chunk: seq<byte>)
    requires Conserved(initial, f) && f.pending.None?
    ensures Conserved(initial, TakeChunk(f, chunk))
  {
    assert LogBytes(f.log) + [] == LogBytes(f.log);
    Assoc(initial, f.read, chunk);
  }

  lemma TakeChunkIsGood(l: Link, initial: seq<byte>, f: Flow, chunk: seq<byte>)
    requires Good(l, initial, f) && f.pending.None?
    ensures Good(l, initial, TakeChunk(f, chunk))
  {
    hide Resume, ParseStream;
    MoveKeepsFaith(l, f, TakeChunk(f, chunk));
    TakeChunkConserves(initial, f, chunk);
  }

  /** Appending to the write buffer appends to what the decoder will see. */
  lemma AppendOut(l: Link, f: Flow, g: Flow, x: seq<byte>)
    requires Faithful(l, f) && !f.torn && g.out == f.out + x
    requires g.buffer == f.buffer && g.wire == f.wire && g.status == f.status
    ensures Resume(l.to, l.dir, g.status, Unread(g))
         == ParseStream(l.to, l.dir, x).After(ArrivingAll(l.from, f.log)[|f.got|..])
  {
    Assoc(f.wire, f.out, x);
    Assoc(f.buffer, f.wire + f.out, x);
    ResumeAppend(l.to, l.dir, f.status, Unread(f), x);
    assert [] + x == x;
  }

  lemma TearIsFaithful(l: Link, f: Flow)
    requires Faithful(l, f) && !f.torn
    ensures Faithful(l, f.(out := f.out + Stub(l.cfg), torn := true))
  {
    AppendOut(l, f, f.(out := f.out + Stub(l.cfg), torn := true), Stub(l.cfg));
  }

  lemma ParseOne(l: Link, x: Sent)
    requires Sendable(l.from, l.to, l.cfg, l.dir, x) && l.cfg.MarksFaithfully()
    ensures ParseStream(l.to, l.dir, Encoded(l.from, l.cfg, x)) == Parsed([Arriving(l.from, x)], Waiting(Head, []))
  {
    ParseEncoded(l.from, l.to, l.cfg, l.dir, x, []);
    assert Encoded(l.from, l.cfg, x) + [] == Encoded(l.from, l.cfg, x);
  }

  lemma SendIsFaithful(l: Link, f: Flow, x: Sent)
    requires Faithful(l, f) && !f.torn && l.cfg.MarksFaithfully()
    requires Sendable(l.from, l.to, l.cfg, l.dir, x)
    ensures Faithful(l, f.(out := f.out + Encoded(l.from, l.cfg, x), log := f.log + [x]))
  {
    hide Resume, ParseStream, Encoded;
    var g := f.(out := f.out + Encoded(l.from, l.cfg, x), log := f.log + [x]);
    AppendOut(l, f, g, Encoded(l.from, l.cfg, x));
    ParseOne(l, x);
    Extend(l, f, g, x);
  }

  /** Encoding one more message behind the unread ones keeps the direction faithful. */
  lemma Extend(l: Link, f: Flow, g: Flow, x: Sent)
    requires Faithful(l, f) && Sendable(l.from, l.to, l.cfg, l.dir, x)
    requires g.log == f.log + [x] && g.got == f.got && !g.torn
    requires Resume(l.to, l.dir, g.status, Unread(g))
          == Parsed(ArrivingAll(l.from, f.log)[|f.got|..] + [Arriving(l.from, x)], Waiting(Head, []))
    ensures Faithful(l, g)
  {
    hide Resume, ParseStream, Sendable;
    var all, k := ArrivingAll(l.from, f.log), |f.got|;
    assert ArrivingAll(l.from, g.log) == all + [Arriving(l.from, x)];
    assert (all + [Arriving(l.from, x)])[k..] == all[k..] + [Arriving(l.from, x)];
  }

  /** What a sender may encode next: the Init of a fresh direction, or Data once it has one. */
  predicate Fits(l: Link, log: seq<Sent>, x: Sent) {
    && x.message.user == l.user
    && DirectionOf(x.message.payload) == l.dir
    && Representable(l.from, l.cfg, x.message, x.random)
    && if log == [] then IsInit(x.message.payload) else ContentOf(x.message.payload).Some?
  }

  lemma TransmitIsFaithful(l: Link, f: Flow, x: Sent)
    requires Working(l) && Faithful(l, f) && Ordered(l, f.log) && !f.torn && Fits(l, f.log, x)
    ensures Faithful(l, Transmit(l, f, x)) && Ordered(l, Transmit(l, f, x).log)
  {
    hide Resume, ParseStream, Encoded, Stub, Faithful;
    if Encodes(l.from, l.cfg, x) {
      SendIsFaithful(l, f, x);
    } else {
      TearIsFaithful(l, f);
    }
  }

  lemma LogBytesSnoc(log: seq<Sent>, x: Sent)
    ensures LogBytes(log + [x]) == LogBytes(log) + Carried(x.message)
  {
    assert (log + [x])[..|log|] == log;
  }

  /** Sending an Init moves no tunnelled byte. */
  lemma TransmitInitIsGood(l: Link, initial: seq<byte>, f: Flow, x: Sent)
    requires Working(l) && Good(l, initial, f) && !f.torn && f.log == [] && Fits(l, f.log, x)
    ensures Good(l, initial, Transmit(l, f, x))
  {
    hide Resume, ParseStream, Encoded, Stub, Representable;
    TransmitIsFaithful(l, f, x);
    LogBytesSnoc(f.log, x);
  }

  /** The relay's step: the pending chunk becomes a Data message, or stays unsent when encoding fails. */
  function Forward(l: Link, f: Flow, x: Sent): Flow {
    var g := Transmit(l, f, x);
    if g.torn then g else g.(pending := None)
  }

  lemma ForwardConserves(initial: seq<byte>, f: Flow, g: Flow, x: Sent)
    requires Conserved(initial, f) && f.pending == Some(Carried(x.message))
    requires g.log == f.log + [x] && g.pending.None?
    requires g.read == f.read && g.written == f.written && g.got == f.got
    ensures Conserved(initial, g)
  {
    LogBytesSnoc(f.log, x);
    assert LogBytes(g.log) + [] == LogBytes(g.log);
  }

  lemma ForwardIsGood(l: Link, initial: seq<byte>, f: Flow, x: Sent)
    requires Working(l) && Good(l, initial, f) && !f.torn && f.log != [] && Fits(l, f.log, x)
    requires f.pending == Some(Carried(x.message))
    ensures Good(l, initial, Forward(l, f, x))
  {
    hide Resume, ParseStream, Encodes, Encoded, Stub, Representable;
    TransmitIsFaithful(l, f, x);
    MoveKeepsFaith(l, Transmit(l, f, x), Forward(l, f, x));
    if Encodes(l.from, l.cfg, x) {
      ForwardConserves(initial, f, Forward(l, f, x), x);
    }
  }

  /**
    What a call of the decoder finds: never an error, and the next message that was encoded.
   */
  lemma DecodeFinds(l: Link, f: Flow)
    requires Faithful(l, f)
    ensures match Decode(l, f).outcome
      case Failed(_) => false
      case Item(m) => |f.got| < |f.log| && m == Arriving(l.from, f.log[|f.got|])
      case Nothing => true
  {
    var c, x := Decode(l, f), f.wire + f.out;
    CallAppend(l.to, l.dir, f.status, f.buffer, x);
    CallAgrees(l.to, l.dir, f.status, f.buffer + x);
    if c.outcome.Item? {
      assert Resume(l.to, l.dir, f.status, Unread(f)).items[0] == c.outcome.message;
    }
  }

  /** A call of the decoder takes the front off what the unread bytes parse to. */
  lemma DecodeTakes(l: Link, f: Flow)
    requires Faithful(l, f)
    ensures var c := Decode(l, f);
      var p, q := Resume(l.to, l.dir, f.status, Unread(f)), Resume(l.to, l.dir, c.status, c.buffer + (f.wire + f.out));
      && p.stop == q.stop
      && match c.outcome
         case Item(m) => p.items == [m] + q.items
         case Nothing => p.items == q.items
         case Failed(_) => false
  {
    var c, x := Decode(l, f), f.wire + f.out;
    DecodeFinds(l, f);
    CallAppend(l.to, l.dir, f.status, f.buffer, x);
    CallAgrees(l.to, l.dir, f.status, f.buffer + x);
  }

  /** Delivering the next message of the log keeps the direction faithful. */
  lemma Advance(l: Link, f: Flow, g: Flow)
    requires AllSendable(l.from, l.to, l.cfg, l.dir, f.log) && g.log == f.log
    requires |f.got| < |f.log| && f.got == ArrivingAll(l.from, f.log)[..|f.got|]
    requires g.got == f.got + [Arriving(l.from, f.log[|f.got|])]
    requires var p := Resume(l.to, l.dir, g.status, Unread(g));
      && p.stop == Waiting(Head, if g.torn then Stub(l.cfg) else [])
      && [Arriving(l.from, f.log[|f.got|])] + p.items == ArrivingAll(l.from, f.log)[|f.got|..]
    ensures Faithful(l, g)
  {
    hide Resume, ParseStream, Sendable, Arriving;
    var all, k := ArrivingAll(l.from, f.log), |f.got|;
    assert g.got == all[..k + 1];
    assert all[k + 1..] == all[k..][1..] == Resume(l.to, l.dir, g.status, Unread(g)).items;
  }

  /** When every encoded byte has reached the decoder, a call returns the next message if there is one. */
  lemma DecodeReady(l: Link, f: Flow)
    requires Faithful(l, f) && f.out == [] && f.wire == [] && |f.got| < |f.log|
    ensures Decode(l, f).outcome.Item?
  {
    DecodeTakes(l, f);
    var c := Decode(l, f);
    assert f.wire + f.out == [] && c.buffer + [] == c.buffer;
    DecodeCallShape(l.to, l.dir, f.status, f.buffer);
    if c.outcome.Nothing? {
      SettledParse(l.to, l.dir, c.status, c.buffer);
    }
  }

  lemma ReceiveIsFaithful(l: Link, f: Flow, relaying: bool)
    requires Faithful(l, f)
    ensures Faithful(l, Receive(l, f, relaying))
  {
    hide Resume, ParseStream, DecodeCall;
    DecodeFinds(l, f);
    DecodeTakes(l, f);
    if Decode(l, f).outcome.Item? {
      Advance(l, f, Receive(l, f, relaying));
    }
  }

  /** Whatever is decoded by a relay, or is the Init the handshake waits for, is fully accounted for. */
  lemma ReceiveIsGood(l: Link, initial: seq<byte>, f: Flow, relaying: bool)
    requires Good(l, initial, f)
    requires relaying || f.got == []
    ensures Good(l, initial, Receive(l, f, relaying))
  {
    hide Resume, ParseStream, DecodeCall, Faithful, Arriving;
    ReceiveIsFaithful(l, f, relaying);
    DecodeFinds(l, f);
    var c := Decode(l, f);
    if c.outcome.Item? {
      BytesSnoc(f.got, c.outcome.message);
      ArrivingCarries(l.from, f.log[|f.got|]);
    }
  }

  /** The first message a direction delivers is its Init, every later one is Data. */
  lemma DecodedKind(l: Link, initial: seq<byte>, f: Flow)
    requires Good(l, initial, f) && Decode(l, f).outcome.Item?
    ensures var m := Decode(l, f).outcome.message;
      && m.user == l.user && DirectionOf(m.payload) == l.dir
      && if f.got == [] then |f.log| > 0 && m.payload == NormalPayload(f.log[0].message.payload) && IsInit(m.payload)
         else ContentOf(m.payload).Some?
  {
    hide Resume, ParseStream, DecodeCall, Arriving, Representable;
    DecodeFinds(l, f);
    var x := f.log[|f.got|];
    assert Sendable(l.from, l.to, l.cfg, l.dir, x);
    ArrivingKind(l.from, x);
    SendableArrives(l, x);
  }

  lemma SendableArrives(l: Link, x: Sent)
    requires Sendable(l.from, l.to, l.cfg, l.dir, x)
    ensures Arriving(l.from, x).payload == NormalPayload(x.message.payload)
  {
    hide Representable;
  }

  lemma ArrivingKind(from: Endpoint, x: Sent)
    ensures ContentOf(Arriving(from, x).payload).Some? <==> ContentOf(x.message.payload).Some?
    ensures IsInit(Arriving(from, x).payload) == IsInit(x.message.payload)
    ensures DirectionOf(Arriving(from, x).payload) == DirectionOf(x.message.payload)
    ensures Arriving(from, x).user == x.message.user
  {
    hide Seal, Representable;
  }

  // ----- consequences -----

  /** Messages still on their way: in the decoder's buffer, on the wire or in the write buffer. */
  function InFlight(l: Link, f: Flow): seq<Message> {
    Resume(l.to, l.dir, f.status, Unread(f)).items
  }

  lemma GotAndInFlight(l: Link, f: Flow)
    requires Faithful(l, f)
    ensures Bytes(f.got) + Bytes(InFlight(l, f)) == LogBytes(f.log)
  {
    var all := ArrivingAll(l.from, f.log);
    ArrivingBytes(l.from, f.log);
    BytesSplit(all, |f.got|);
  }

  lemma BytesSplit(ms: seq<Message>, k: nat)
    requires k <= |ms|
    ensures Bytes(ms[..k]) + Bytes(ms[k..]) == Bytes(ms)
  {
    assert ms == ms[..k] + ms[k..];
    BytesAppend(ms[..k], ms[k..]);
  }

  /** Nothing is lost, repeated or reordered: written, in flight and unsent bytes make up what was read. */
  lemma FlowConservation(l: Link, initial: seq<byte>, f: Flow)
    requires Good(l, initial, f)
    ensures f.written + Bytes(InFlight(l, f)) + Unsent(f) == initial + f.read
    ensures f.written <= initial + f.read
  {
    hide Resume, ParseStream;
    GotAndInFlight(l, f);
    PrefixOf(f.written, Bytes(InFlight(l, f)), Unsent(f));
  }

  lemma PrefixOf(a: seq<byte>, b: seq<byte>, c: seq<byte>)
    ensures a <= a + b + c
  {
  }

  /** Once nothing is left anywhere in between, everything read has been written. */
  lemma FlowDrained(l: Link, initial: seq<byte>, f: Flow)
    requires Good(l, initial, f)
    requires f.out == [] && f.wire == [] && Waits(f.status, f.buffer)
    ensures f.written + Unsent(f) == initial + f.read
    ensures f.status == Head && f.buffer == if f.torn then Stub(l.cfg) else []
    ensures f.got == ArrivingAll(l.from, f.log)
  {
    hide ParseStream, AllSendable, Ordered, Arriving, Stub;
    FlowConservation(l, initial, f);
    assert Unread(f) == f.buffer;
    SettledParse(l.to, l.dir, f.status, f.buffer);
    assert f.written + [] == f.written;
  }
}
