/**
  The proxy's side of the UDP path: it sends one datagram and collects the answer. The socket is a script
  of outcomes.
 */
module Udp {
  import opened Wrappers
  import opened Octets
  import opened Messages

  const MAX_UDP_PACKET_SIZE: nat := 65535

  /** What one receive can return; the receive buffer bounds its size. */
  type Packet = s: seq<byte> | |s| <= MAX_UDP_PACKET_SIZE

  datatype Receive = TimedOut | Broke | Received(data: Packet)

  /** The outcomes of the proxy's socket operations for one request; after the last receive, nothing arrives. */
  datatype ProxyScript = ProxyScript(bound: bool, resolved: bool, connected: bool, sent: bool, receives: seq<Receive>)

  // ----- the proxy -----

  /** The answer collected by the receive loop; `None` when a receive times out or fails first. */
  function Collected(receives: seq<Receive>): Option<seq<byte>> {
    if receives == [] || !receives[0].Received? then None
    else if |receives[0].data| < MAX_UDP_PACKET_SIZE then Some(receives[0].data)
    else
      var rest :- Collected(receives[1..]);
      Some(receives[0].data + rest)
  }

  /** Receive `k` is the first that does not fill the buffer, and nothing failed before it. */
  predicate ShortAt(receives: seq<Receive>, k: int) {
    && 0 <= k < |receives| && receives[k].Received? && |receives[k].data| < 65535
    && forall i :: 0 <= i < k ==> receives[i].Received? && |receives[i].data| == 65535
  }

  function Joined(receives: seq<Receive>): seq<byte> {
    if receives == [] then []
    else Joined(receives[..|receives| - 1])
         + if receives[|receives| - 1].Received? then receives[|receives| - 1].data else []
  }

  lemma {:induction false} JoinedCons(r: Receive, rs: seq<Receive>)
    requires r.Received?
    ensures Joined([r] + rs) == r.data + Joined(rs)
    decreases |rs|
  {
    if rs == [] {
      assert [r] + rs == [r] && [r][..0] == [];
      assert Joined([r]) == Joined([]) + r.data;
    } else {
      var n := |rs| - 1;
      JoinedCons(r, rs[..n]);
      assert ([r] + rs)[..n + 1] == [r] + rs[..n];
      Assoc(r.data, Joined(rs[..n]), if rs[n].Received? then rs[n].data else []);
    }
  }

  lemma FullBeforeShort(receives: seq<Receive>, k: int)
    requires ShortAt(receives, k)
    ensures k > 0 ==> receives[0].Received? && |receives[0].data| == MAX_UDP_PACKET_SIZE
  {
  }

  /** The answer is the concatenation of the receives up to and including the first short one, if there is one. */
  lemma {:induction false} CollectedExactly(receives: seq<Receive>)
    ensures Collected(receives).Some? <==> exists k :: ShortAt(receives, k)
    ensures forall k :: ShortAt(receives, k) ==> Collected(receives) == Some(Joined(receives[..k + 1]))
    decreases |receives|
  {
    if receives != [] && receives[0].Received? {
      var first, rest := receives[0], receives[1..];
      assert receives == [first] + rest;
      if |first.data| < MAX_UDP_PACKET_SIZE {
        assert ShortAt(receives, 0);
        assert receives[..1] == [first] + [];
        JoinedCons(first, []);
        assert first.data + [] == first.data;
        forall k | ShortAt(receives, k) ensures k == 0 {
          FullBeforeShort(receives, k);
        }
      } else {
        CollectedExactly(rest);
        if exists k :: ShortAt(rest, k) {
          var k :| ShortAt(rest, k);
          assert ShortAt(receives, k + 1);
        }
        forall k | ShortAt(receives, k) ensures Collected(receives) == Some(Joined(receives[..k + 1])) {
          assert ShortAt(rest, k - 1);
          assert receives[..k + 1] == [first] + rest[..k];
          JoinedCons(first, rest[..k]);
        }
      }
    }
  }

  predicate Reaches(script: ProxyScript) {
    script.bound && script.resolved && script.connected && script.sent
  }

  /** The reply the proxy sends for a request, if it sends one. */
  function ProxyReply(request: AgentUdp, script: ProxyScript): Option<ProxyUdp> {
    if !Reaches(script) || !request.needResponse then None else
    match Collected(script.receives)
    case None => None
    case Some(data) => if data == [] then None else Some(ProxyUdp(request.src, request.dst, data))
  }

  /** A datagram the proxy sends to a destination. */
  datatype Outgoing = Outgoing(to: Address, data: seq<byte>)

  /** `UdpHandler::exec`; `out` is what it sends to the destination. */
  method ProxyExec(request: AgentUdp, script: ProxyScript)
    returns (reply: Option<ProxyUdp>, ok: bool, out: Option<Outgoing>)
    ensures out == if Reaches(script) then Some(Outgoing(request.dst, request.data)) else None
    ensures reply == ProxyReply(request, script)
    ensures ok <==> Reaches(script) && (request.needResponse ==> Collected(script.receives).Some?)
  {
    if !script.bound || !script.resolved || !script.connected || !script.sent {
      return None, false, None;
    }
    out := Some(Outgoing(request.dst, request.data));
    if !request.needResponse {
      return None, true, out;
    }
    var collected := new BytesMut([]);
    ghost var all := Collected(script.receives);
    var i := 0;
    assert script.receives[0..] == script.receives && (all.Some? ==> [] + all.value == all.value);
    while true
      invariant i <= |script.receives|
      invariant all == match Collected(script.receives[i..])
                       case None => None
                       case Some(rest) => Some(collected.data + rest)
      decreases |script.receives| - i
    {
      if i == |script.receives| {
        return None, false, out;
      }
      assert script.receives[i..][1..] == script.receives[i + 1..];
      match script.receives[i] {
        case TimedOut => return None, false, out;
        case Broke => return None, false, out;
        case Received(packet) =>
          if |packet| == 0 {
            assert collected.data + [] == collected.data;
            break;
          }
          ghost var before := collected.data;
          collected.Put(packet);
          if |packet| < MAX_UDP_PACKET_SIZE {
            break;
          }
          if Collected(script.receives[i + 1..]).Some? {
            Assoc(before, packet, Collected(script.receives[i + 1..]).value);
          }
          i := i + 1;
      }
    }
    if |collected.data| == 0 {
      return None, true, out;
    }
    return Some(ProxyUdp(request.src, request.dst, collected.data)), true, out;
  }

  /**
    The proxy replies if and only if it reaches the destination for a request that wants a response, a
    receive below the limit comes before any failure, and something was received by then.
   */
  lemma RepliesExactly(request: AgentUdp, script: ProxyScript)
    ensures ProxyReply(request, script).Some?
       <==> Reaches(script) && request.needResponse
            && exists k :: ShortAt(script.receives, k) && Joined(script.receives[..k + 1]) != []
    ensures forall k :: ShortAt(script.receives, k) && ProxyReply(request, script).Some? ==>
      ProxyReply(request, script).value == ProxyUdp(request.src, request.dst, Joined(script.receives[..k + 1]))
  {
    CollectedExactly(script.receives);
  }
}
