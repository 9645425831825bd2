/**
  One direction of a tunnel: bytes read at one end, encoded into frames, carried by a FIFO byte pipe,
  decoded at the other end and written out. A relay forwards the contents of Data messages and stops at
  the first decode error or message of another kind.
 */
module Relay {
  import opened Wrappers
  import opened Octets
  import opened Messages
  import opened Codec
  import opened Stream

  /** The bytes a relay unwraps from a message; other messages stop it. */
  function ContentOf(p: Payload): Option<seq<byte>> {
    match p
    case UpTcp(AgentData(content)) => Some(content)
    case DownTcp(ProxyData(content)) => Some(content)
    case _ => None
  }

  function Carried(m: Message): seq<byte> {
    match ContentOf(m.payload)
    case Some(content) => content
    case None => []
  }

  /** All the tunnelled bytes in a list of messages. */
  function Bytes(ms: seq<Message>): seq<byte> {
    if ms == [] then [] else Bytes(ms[..|ms| - 1]) + Carried(ms[|ms| - 1])
  }

  lemma BytesSnoc(ms: seq<Message>, m: Message)
    ensures Bytes(ms + [m]) == Bytes(ms) + Carried(m)
  {
    assert (ms + [m])[..|ms|] == ms;
  }

  lemma {:induction false} BytesAppend(a: seq<Message>, b: seq<Message>)
    ensures Bytes(a + b) == Bytes(a) + Bytes(b)
    decreases |b|
  {
    if b == [] {
      assert a + b == a;
    } else {
      var init, last := b[..|b| - 1], b[|b| - 1];
      assert b == init + [last];
      BytesAppend(a, init);
      BytesSnoc(init, last);
      BytesSnoc(a + init, last);
      assert a + b == a + init + [last];
      Assoc(Bytes(a), Bytes(init), Carried(last));
    }
  }

  lemma NoBytes()
    ensures Bytes([]) == [] && Delivered([]) == []
  {
  }

  lemma BytesCons(m: Message, ms: seq<Message>)
    ensures Bytes([m] + ms) == Carried(m) + Bytes(ms)
  {
    BytesAppend([m], ms);
    BytesSnoc([], m);
    assert [] + [m] == [m];
  }

  // ----- the receiving relay on arbitrary bytes -----

  /** What a relay writes out for a list of messages: the contents before the first that is not Data. */
  function Delivered(ms: seq<Message>): seq<byte> {
    if ms == [] || ContentOf(ms[0].payload).None? then []
    else Carried(ms[0]) + Delivered(ms[1..])
  }

  lemma DeliveredCons(m: Message, ms: seq<Message>)
    requires ContentOf(m.payload).Some?
    ensures Delivered([m] + ms) == Carried(m) + Delivered(ms)
  {
    assert ([m] + ms)[1..] == ms;
  }

  lemma {:induction false} DeliveredAppend(a: seq<Message>, b: seq<Message>)
    requires forall i :: 0 <= i < |a| ==> ContentOf(a[i].payload).Some?
    ensures Delivered(a + b) == Bytes(a) + Delivered(b)
    decreases |a|
  {
    hide ContentOf, Delivered, Bytes, Carried;
    if a == [] {
      assert a + b == b && Bytes(a) + Delivered(b) == Delivered(b) by {
        NoBytes();
      }
    } else {
      var m, rest := a[0], a[1..];
      DeliveredAppend(rest, b);
      DeliveredCons(m, rest + b);
      BytesCons(m, rest);
      assert a == [m] + rest && a + b == [m] + (rest + b);
      Assoc(Carried(m), Bytes(rest), Delivered(b));
    }
  }

  /** What the relay still has to write when `later` is yet to be read. */
  function ToDeliver(codec: ConnectionCodec, src: BytesMut, later: seq<byte>): seq<byte>
    reads codec, src
  {
    Delivered(Resume(codec.end, codec.decodes, codec.status, src.data + later).items)
  }

  /** Writes out what is buffered until the decoder waits; `stopped` when the relay ends before that. */
  method Drain(codec: ConnectionCodec, src: BytesMut, dst: BytesMut, ghost later: seq<byte>) returns (stopped: bool)
    requires src != dst
    modifies codec`status, src, dst
    ensures old(dst.data) + old(ToDeliver(codec, src, later))
         == dst.data + if stopped then [] else ToDeliver(codec, src, later)
    ensures !stopped ==> Waits(codec.status, src.data)
  {
    ghost var e, dir, before, all := codec.end, codec.decodes, dst.data, ToDeliver(codec, src, later);
    while true
      invariant before + all == dst.data + ToDeliver(codec, src, later)
      decreases Measure(codec.status, src.data)
    {
      CallAgrees(e, dir, codec.status, src.data + later);
      CallAppend(e, dir, codec.status, src.data, later);
      DecodeCallShape(e, dir, codec.status, src.data);
      var outcome := codec.Decode(src);
      match outcome {
        case Nothing => return false;
        case Failed(_) => return true;
        case Item(m) =>
          ghost var rest := Resume(e, dir, codec.status, src.data + later).items;
          assert ([m] + rest)[1..] == rest;
          match ContentOf(m.payload) {
            case None => return true;
            case Some(content) =>
              Assoc(dst.data, content, Delivered(rest));
              dst.Put(content);
          }
      }
    }
  }

  /**
    Writes the unwrapped contents of a connection to `dst`: first of what is already buffered, then of
    the reads, however they are cut.
   */
  method ForwardIncoming(codec: ConnectionCodec, src: BytesMut, chunks: seq<seq<byte>>, dst: BytesMut)
    requires src != dst
    modifies codec`status, src, dst
    ensures dst.data
         == old(dst.data)
            + Delivered(Resume(codec.end, codec.decodes, old(codec.status), old(src.data) + Flatten(chunks)).items)
  {
    hide Resume, ParseStream, Delivered;
    ghost var before, all := dst.data, ToDeliver(codec, src, Flatten(chunks));
    var stopped := Drain(codec, src, dst, Flatten(chunks));
    assert chunks[0..] == chunks;
    for i := 0 to |chunks|
      invariant before + all == dst.data + if stopped then [] else ToDeliver(codec, src, Flatten(chunks[i..]))
      invariant !stopped ==> Waits(codec.status, src.data)
    {
      if stopped {
        return;
      }
      ghost var later := Flatten(chunks[i + 1..]);
      assert chunks[i..][0] == chunks[i] && chunks[i..][1..] == chunks[i + 1..];
      Assoc(src.data, chunks[i], later);
      src.Put(chunks[i]);
      stopped := Drain(codec, src, dst, later);
    }
    if !stopped {
      SettledParse(codec.end, codec.decodes, codec.status, src.data);
      assert src.data + Flatten(chunks[|chunks|..]) == src.data;
      NoBytes();
    }
  }

  lemma SettledParse(e: Endpoint, dir: Direction, status: Status, s: seq<byte>)
    requires Waits(status, s)
    ensures Resume(e, dir, status, s) == Parsed([], Waiting(status, s))
  {
  }

  /** Data messages only. */
  predicate AllData(log: seq<Sent>) {
    forall i :: 0 <= i < |log| ==> ContentOf(log[i].message.payload).Some?
  }

  function LogBytes(log: seq<Sent>): seq<byte> {
    if log == [] then [] else LogBytes(log[..|log| - 1]) + Carried(log[|log| - 1].message)
  }

  lemma ArrivingCarries(from: Endpoint, x: Sent)
    ensures Carried(Arriving(from, x)) == Carried(x.message)
    ensures ContentOf(Arriving(from, x).payload).Some? <==> ContentOf(x.message.payload).Some?
    ensures Arriving(from, x).user == x.message.user
  {
  }

  lemma {:induction false} ArrivingBytes(from: Endpoint, log: seq<Sent>)
    ensures Bytes(ArrivingAll(from, log)) == LogBytes(log)
    decreases |log|
  {
    if log != [] {
      var n := |log| - 1;
      ArrivingBytes(from, log[..n]);
      ArrivingCarries(from, log[n]);
      assert ArrivingAll(from, log)[..n] == ArrivingAll(from, log[..n]);
    }
  }

  /** The first call of a fresh decoder on `after` does not return a Data message. */
  predicate StopsRelay(to: Endpoint, dir: Direction, after: seq<byte>) {
    match DecodeCall(to, dir, Head, after).outcome
    case Item(m) => ContentOf(m.payload).None?
    case _ => true
  }

  /**
    Data messages followed by bytes that stop a relay: the stub of a failed encode, a cut-off frame, one
    that the decoder refuses, or a message of another kind. The relay delivers exactly the contents sent
    before that point, and nothing of what comes after it, whatever that is.
   */
  lemma StopSafety(
      from: Endpoint, to: Endpoint, cfg: Config, dir: Direction, log: seq<Sent>, after: seq<byte>)
    requires AllSendable(from, to, cfg, dir, log) && cfg.MarksFaithfully() && AllData(log)
    requires StopsRelay(to, dir, after)
    ensures Delivered(ParseStream(to, dir, EncodedAll(from, cfg, log) + after).items) == LogBytes(log)
  {
    ParseEncodedAll(from, to, cfg, dir, log, after);
    ArrivingBytes(from, log);
    var a := ArrivingAll(from, log);
    forall i | 0 <= i < |a| ensures ContentOf(a[i].payload).Some? {
      ArrivingCarries(from, log[i]);
    }
    CallAgrees(to, dir, Head, after);
    assert Delivered(ParseStream(to, dir, after).items) == [];
    DeliveredAppend(a, ParseStream(to, dir, after).items);
  }

  /** The bytes a failed encode leaves behind never decode, even when the writer then closes. */
  lemma TornStream(from: Endpoint, to: Endpoint, cfg: Config, dir: Direction, log: seq<Sent>)
    requires AllSendable(from, to, cfg, dir, log) && cfg.MarksFaithfully()
    ensures ParseStream(to, dir, EncodedAll(from, cfg, log) + Stub(cfg))
         == Parsed(ArrivingAll(from, log), Waiting(Head, Stub(cfg)))
  {
    ParseEncodedAll(from, to, cfg, dir, log, Stub(cfg));
  }
}
