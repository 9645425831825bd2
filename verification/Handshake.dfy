/**
  The SOCKS5 handshake over a client stream that arrives in reads of any size. Three decoders share the
  stream: the dispatcher only peeks and hands its buffer on; the negotiation and the request decoder
  each take one message, and what else is in their buffer then is dropped with them.
 */
module Handshake {
  import opened Wrappers
  import opened Octets
  import opened Messages
  import opened Socks5
  import opened SocksFormat

  datatype Outcome =
    | Unsupported  // SOCKS4
    | Http
    | Exhausted
    | AuthFailed(auth: AuthOutcome)
    | InitFailed(init: InitOutcome)
    | Done(command: Command, address: Address, lostAuth: seq<byte>, lostInit: seq<byte>, taken: nat)

  /** How many reads, from the `i`th on, until at least `n` bytes are buffered. */
  function Cut(chunks: seq<seq<byte>>, n: nat, i: nat): (r: Option<nat>)
    requires i <= |chunks|
    ensures r.Some? ==> i <= r.value <= |chunks| && |Flatten(chunks[..r.value])| >= n
    decreases |chunks| - i
  {
    if |Flatten(chunks[..i])| >= n then Some(i)
    else if i == |chunks| then None
    else Cut(chunks, n, i + 1)
  }

  /** The request stage on the reads left by the negotiation. */
  function Request(chunks: seq<seq<byte>>, lostAuth: seq<byte>, earlier: nat): Outcome {
    match Cut(chunks, 4, 0)
    case None => Exhausted
    case Some(used) =>
      var buffer := Flatten(chunks[..used]);
      match InitCall(buffer)
      case Init(command, address) =>
        Done(command, address, lostAuth, ParseAddress(buffer[3..]).rest, earlier + used)
      case failed => InitFailed(failed)
  }

  function Negotiation(chunks: seq<seq<byte>>): Outcome {
    match Cut(chunks, 2, 0)
    case None => Exhausted
    case Some(used) =>
      var buffer := Flatten(chunks[..used]);
      match AuthCall(buffer)
      case Auth(_) => Request(chunks[used..], buffer[buffer[1] as int + 2..], used)
      case failed => AuthFailed(failed)
  }

  function Shake(chunks: seq<seq<byte>>): Outcome {
    match Cut(chunks, 1, 0)
    case None => Exhausted
    case Some(used) =>
      var flag := Flatten(chunks[..used])[0];
      if flag == SOCKS_V5 then Negotiation(chunks) else if flag == SOCKS_V4 then Unsupported else Http
  }

  /** Reads on until at least `n` bytes are buffered; the decoders ask for more exactly until then. */
  lemma CutStep(chunks: seq<seq<byte>>, n: nat, i: nat)
    requires i < |chunks| && |Flatten(chunks[..i])| < n
    ensures Cut(chunks, n, i) == Cut(chunks, n, i + 1)
    ensures Flatten(chunks[..i + 1]) == Flatten(chunks[..i]) + chunks[i]
  {
    FlattenLast(chunks, i);
  }

  lemma CutHere(chunks: seq<seq<byte>>, n: nat, i: nat)
    requires i <= |chunks|
    ensures |Flatten(chunks[..i])| >= n ==> Cut(chunks, n, i) == Some(i)
    ensures |Flatten(chunks[..i])| < n && i == |chunks| ==> Cut(chunks, n, i) == None
  {
  }

  method Dispatch(chunks: seq<seq<byte>>) returns (outcome: Outcome)
    ensures outcome == Shake(chunks)
  {
    var src := new BytesMut([]);
    var i := 0;
    while |src.data| < 1 && i < |chunks|
      invariant i <= |chunks| && src.data == Flatten(chunks[..i])
      invariant Cut(chunks, 1, 0) == Cut(chunks, 1, i) && Cut(chunks, 2, 0) == Cut(chunks, 2, i)
    {
      CutStep(chunks, 1, i);
      CutStep(chunks, 2, i);
      src.Put(chunks[i]);
      i := i + 1;
    }
    if |src.data| < 1 {
      return Exhausted;
    }
    match src.data[0] {
      case SOCKS_V5 => outcome := Greet(chunks, src, i);
      case SOCKS_V4 => return Unsupported;
      case _ => return Http;
    }
  }

  /** The negotiation stage starts with the dispatcher's buffer. */
  method Greet(chunks: seq<seq<byte>>, src: BytesMut, start: nat) returns (outcome: Outcome)
    requires start <= |chunks| && src.data == Flatten(chunks[..start]) && Cut(chunks, 2, 0) == Cut(chunks, 2, start)
    modifies src
    ensures outcome == Negotiation(chunks)
  {
    hide Cut, Flatten, Request, MethodsOf;
    var i := start;
    ghost var buffer := src.data;
    var auth := DecodeAuth(src);
    while auth.AuthIncomplete? && i < |chunks|
      invariant start <= i <= |chunks| && buffer == Flatten(chunks[..i])
      invariant Cut(chunks, 2, 0) == Cut(chunks, 2, i) && auth == AuthCall(buffer)
      invariant auth.AuthIncomplete? ==> src.data == buffer
      invariant auth.Auth? ==> src.data == buffer[buffer[1] as int + 2..]
    {
      CutStep(chunks, 2, i);
      src.Put(chunks[i]);
      buffer := src.data;
      i := i + 1;
      auth := DecodeAuth(src);
    }
    CutHere(chunks, 2, i);
    match auth {
      case AuthIncomplete => return Exhausted;
      case Auth(_) => outcome := Ask(chunks[i..], src.data, i);
      case failed => return AuthFailed(failed);
    }
  }

  /** The request stage starts with an empty buffer. */
  method Ask(chunks: seq<seq<byte>>, lostAuth: seq<byte>, earlier: nat) returns (outcome: Outcome)
    ensures outcome == Request(chunks, lostAuth, earlier)
  {
    var src := new BytesMut([]);
    var i := 0;
    ghost var buffer: seq<byte> := [];
    var init := InitIncomplete;
    while init.InitIncomplete? && i < |chunks|
      invariant i <= |chunks| && buffer == Flatten(chunks[..i])
      invariant Cut(chunks, 4, 0) == Cut(chunks, 4, i) && init == InitCall(buffer)
      invariant init.InitIncomplete? ==> src.data == buffer
      invariant init.Init? ==> src.data == ParseAddress(buffer[3..]).rest
    {
      CutStep(chunks, 4, i);
      src.Put(chunks[i]);
      buffer := src.data;
      i := i + 1;
      init := DecodeInit(src);
    }
    match init {
      case InitIncomplete => return Exhausted;
      case Init(command, address) => return Done(command, address, lostAuth, src.data, earlier + i);
      case failed => return InitFailed(failed);
    }
  }

  // ----- what a client sends -----

  predicate IsNegotiation(s: seq<byte>) {
    |s| >= 2 && s[0] == SOCKS_V5 && |s| == s[1] as int + 2
  }

  /** A request message, and nothing behind it. */
  predicate IsRequest(s: seq<byte>) {
    InitCall(s).Init? && ParseAddress(s[3..]).rest == []
  }

  /** The read that completes 2 bytes ends with the negotiation, the one that completes 4 more with the request. */
  predicate Lockstep(chunks: seq<seq<byte>>, negotiation: seq<byte>, request: seq<byte>) {
    match Cut(chunks, 2, 0)
    case None => false
    case Some(a) =>
      |Flatten(chunks[..a])| == |negotiation|
      && match Cut(chunks[a..], 4, 0)
         case None => false
         case Some(b) => |Flatten(chunks[a..][..b])| == |request|
  }

  lemma CutSplits(chunks: seq<seq<byte>>, i: nat)
    requires i <= |chunks|
    ensures Flatten(chunks) == Flatten(chunks[..i]) + Flatten(chunks[i..])
  {
    assert chunks == chunks[..i] + chunks[i..];
    FlattenAppend(chunks[..i], chunks[i..]);
  }

  lemma {:induction false} CutSkips(chunks: seq<seq<byte>>, n: nat, m: nat, i: nat)
    requires i <= |chunks| && n <= m && Cut(chunks, m, i).Some?
    ensures Cut(chunks, n, i).Some? && Cut(chunks, n, i).value <= Cut(chunks, m, i).value
    decreases |chunks| - i
  {
    if |Flatten(chunks[..i])| < n {
      CutSkips(chunks, n, m, i + 1);
    }
  }

  /** A buffer that starts `s` agrees with it. */
  lemma PrefixAgrees(b: seq<byte>, rest: seq<byte>, s: seq<byte>, t: seq<byte>)
    requires b + rest == s + t
    ensures |b| >= |s| ==> b == s + b[|s|..]
    ensures |b| == |s| ==> b == s && rest == t
    ensures forall i :: 0 <= i < |b| && i < |s| ==> b[i] == s[i]
  {
    assert forall i :: 0 <= i < |b| && i < |s| ==> b[i] == (b + rest)[i] == s[i];
    if |b| >= |s| {
      assert b[..|s|] == s;
    }
    if |b| == |s| {
      assert rest == (b + rest)[|b|..] == t;
    }
  }

  /** The negotiation stage drops nothing exactly when its buffer is the negotiation message. */
  lemma AuthStage(b: seq<byte>, rest: seq<byte>, negotiation: seq<byte>, later: seq<byte>)
    requires IsNegotiation(negotiation) && b + rest == negotiation + later && |b| >= 2
    ensures (AuthCall(b).Auth? && b[b[1] as int + 2..] == []) <==> |b| == |negotiation|
    ensures |b| == |negotiation| ==> rest == later
  {
    PrefixAgrees(b, rest, negotiation, later);
  }

  /** The request stage drops nothing exactly when its buffer is the request message. */
  lemma InitStage(b: seq<byte>, rest: seq<byte>, request: seq<byte>, later: seq<byte>)
    requires IsRequest(request) && b + rest == request + later && |b| >= 4
    ensures IsRequest(b) <==> |b| == |request|
    ensures |b| == |request| ==> b == request && rest == later
  {
    hide ParseAddress;
    PrefixAgrees(b, rest, request, later);
    if |b| >= |request| {
      assert b[3..] == request[3..] + b[|request|..];
      ParseExtends(request[3..], b[|request|..]);
    } else {
      assert b[3..] == request[3..][..|b| - 3];
      ParsePrefixFree(request[3..], |b| - 3);
    }
  }

  /**
    For a client stream of a negotiation, a request and later bytes, cut into reads in any way: the
    handshake succeeds and drops nothing if and only if the client kept lockstep; then it recovers
    the command and the address and leaves exactly the later bytes to the relay.
   */
  lemma LosesNothingExactly(chunks: seq<seq<byte>>, negotiation: seq<byte>, request: seq<byte>, later: seq<byte>)
    requires IsNegotiation(negotiation) && IsRequest(request)
    requires Flatten(chunks) == negotiation + (request + later)
    ensures LostNothing(Shake(chunks)) <==> Lockstep(chunks, negotiation, request)
    ensures Lockstep(chunks, negotiation, request) ==> Recovers(chunks, Shake(chunks), request, later)
  {
    hide Shake, Negotiation, Cut, InitCall, ParseAddress, IsRequest;
    ShakeIsNegotiation(chunks, negotiation, request + later);
    if Cut(chunks, 2, 0).Some? {
      NegotiationExactly(chunks, negotiation, request, later);
    }
  }

  predicate LostNothing(outcome: Outcome) {
    outcome.Done? && outcome.lostAuth == [] && outcome.lostInit == []
  }

  /** The outcome is what `request` asks for, without loss, and the reads behind it are the later bytes. */
  predicate Recovers(chunks: seq<seq<byte>>, outcome: Outcome, request: seq<byte>, later: seq<byte>)
    requires IsRequest(request)
  {
    && LostNothing(outcome) && outcome.taken <= |chunks|
    && InitCall(request) == Init(outcome.command, outcome.address)
    && Flatten(chunks[outcome.taken..]) == later
  }

  lemma NegotiationExactly(chunks: seq<seq<byte>>, negotiation: seq<byte>, request: seq<byte>, later: seq<byte>)
    requires IsNegotiation(negotiation) && IsRequest(request)
    requires Flatten(chunks) == negotiation + (request + later)
    requires Cut(chunks, 2, 0).Some?
    ensures LostNothing(Negotiation(chunks)) <==> Lockstep(chunks, negotiation, request)
    ensures Lockstep(chunks, negotiation, request) ==> Recovers(chunks, Negotiation(chunks), request, later)
  {
    hide InitCall, AuthCall, Cut, Flatten, Request, Negotiation, IsNegotiation, IsRequest, ParseAddress;
    var a := Cut(chunks, 2, 0).value;
    CutSplits(chunks, a);
    if |Flatten(chunks[..a])| == |negotiation| {
      NegotiationKeeps(chunks, a, negotiation, request + later);
      RequestExactly(chunks[a..], request, later, a);
      var cut := Cut(chunks[a..], 4, 0);
      if cut.Some? {
        assert chunks[a..][cut.value..] == chunks[a + cut.value..];
      }
    } else {
      NegotiationDrops(chunks, a, negotiation, request + later);
    }
  }

  lemma NegotiationKeeps(chunks: seq<seq<byte>>, a: nat, negotiation: seq<byte>, later: seq<byte>)
    requires IsNegotiation(negotiation) && Cut(chunks, 2, 0) == Some(a)
    requires Flatten(chunks[..a]) + Flatten(chunks[a..]) == negotiation + later
    requires |Flatten(chunks[..a])| == |negotiation|
    ensures Negotiation(chunks) == Request(chunks[a..], [], a) && Flatten(chunks[a..]) == later
  {
    hide Flatten, Request;
    AuthStage(Flatten(chunks[..a]), Flatten(chunks[a..]), negotiation, later);
  }

  lemma NegotiationDrops(chunks: seq<seq<byte>>, a: nat, negotiation: seq<byte>, later: seq<byte>)
    requires IsNegotiation(negotiation) && Cut(chunks, 2, 0) == Some(a)
    requires Flatten(chunks[..a]) + Flatten(chunks[a..]) == negotiation + later
    requires |Flatten(chunks[..a])| != |negotiation|
    ensures !(Negotiation(chunks).Done? && Negotiation(chunks).lostAuth == [])
  {
    hide Flatten, Request;
    var b := Flatten(chunks[..a]);
    AuthStage(b, Flatten(chunks[a..]), negotiation, later);
    if AuthCall(b).Auth? {
      RequestKeepsLoss(chunks[a..], b[b[1] as int + 2..], a);
    }
  }

  lemma RequestKeepsLoss(chunks: seq<seq<byte>>, lostAuth: seq<byte>, earlier: nat)
    ensures var r := Request(chunks, lostAuth, earlier); r.Done? ==> r.lostAuth == lostAuth
  {
  }

  lemma ShakeIsNegotiation(chunks: seq<seq<byte>>, negotiation: seq<byte>, later: seq<byte>)
    requires IsNegotiation(negotiation) && Flatten(chunks) == negotiation + later
    ensures Cut(chunks, 2, 0).Some? ==> Shake(chunks) == Negotiation(chunks)
    ensures Cut(chunks, 2, 0).None? ==> !Shake(chunks).Done?
  {
    if Cut(chunks, 2, 0).Some? {
      CutSkips(chunks, 1, 2, 0);
    }
    if Cut(chunks, 1, 0).Some? {
      var i := Cut(chunks, 1, 0).value;
      CutSplits(chunks, i);
      PrefixAgrees(Flatten(chunks[..i]), Flatten(chunks[i..]), negotiation, later);
    }
  }

  lemma RequestExactly(chunks: seq<seq<byte>>, request: seq<byte>, later: seq<byte>, earlier: nat)
    requires IsRequest(request) && Flatten(chunks) == request + later
    ensures var r, cut := Request(chunks, [], earlier), Cut(chunks, 4, 0);
      && (LostNothing(r) <==> cut.Some? && |Flatten(chunks[..cut.value])| == |request|)
      && (cut.Some? && |Flatten(chunks[..cut.value])| == |request| ==>
            && r.Done? && InitCall(request) == Init(r.command, r.address)
            && r.taken == earlier + cut.value && Flatten(chunks[cut.value..]) == later)
  {
    hide ParseAddress, Cut;
    var cut := Cut(chunks, 4, 0);
    if cut.Some? {
      CutSplits(chunks, cut.value);
      InitStage(Flatten(chunks[..cut.value]), Flatten(chunks[cut.value..]), request, later);
    }
  }

  function RequestBytes(code: byte, reserved: byte, address: Address): seq<byte> {
    [SOCKS_V5, code, reserved] + PrintAddress(address)
  }

  /** Command 1, 2 or 3 with a printable address is a request for just that. */
  lemma PrintedIsRequest(code: byte, reserved: byte, address: Address)
    requires 1 <= code <= 3 && Printable(address)
    ensures var request := RequestBytes(code, reserved, address);
      IsRequest(request) && InitCall(request).address == address && IsCommand(code, InitCall(request).command)
  {
    hide ParseAddress, InitCall;
    var request := RequestBytes(code, reserved, address);
    AddressRoundTripExactly(address, []);
    assert request[3..] == PrintAddress(address) == PrintAddress(address) + [];
    ParseIsTotal(PrintAddress(address));
    RequestTable(request);
  }

  /**
    A lockstep client that prints a command and an address gets exactly that address to the relay, with its
    later bytes, under Connect for 1, Bind for 2 and UdpAssociate for 3.
   */
  lemma PrintedRequestArrives(
      chunks: seq<seq<byte>>, negotiation: seq<byte>, code: byte, reserved: byte, address: Address, later: seq<byte>)
    requires IsNegotiation(negotiation) && 1 <= code <= 3 && Printable(address)
    requires Flatten(chunks) == negotiation + (RequestBytes(code, reserved, address) + later)
    requires Lockstep(chunks, negotiation, RequestBytes(code, reserved, address))
    ensures var outcome := Shake(chunks);
      && LostNothing(outcome) && outcome.address == address && IsCommand(code, outcome.command)
      && outcome.taken <= |chunks| && Flatten(chunks[outcome.taken..]) == later
  {
    hide Shake, InitCall, IsRequest, IsCommand, ParseAddress, PrintAddress, Printable, Lockstep;
    PrintedIsRequest(code, reserved, address);
    LosesNothingExactly(chunks, negotiation, RequestBytes(code, reserved, address), later);
  }

  /** Any domain bytes can be requested, ill-formed ones and "0" too; the agent sees what the parser makes of them. */
  lemma DomainIsRequest(code: byte, reserved: byte, raw: seq<byte>, hi: byte, lo: byte)
    requires 1 <= code <= 3 && |raw| <= 255
    ensures var request := [5, code, reserved] + ([3, |raw|] + (raw + [hi, lo]));
      && IsRequest(request) && IsCommand(code, InitCall(request).command)
      && InitCall(request).address == Domain(HostName(raw), 256 * hi + lo)
  {
    hide HostName, ParseAddress, InitCall;
    var address := [3, |raw|] + (raw + [hi, lo]);
    var request := [5, code, reserved] + address;
    DomainBytes(raw, hi, lo, []);
    assert request[3..] == address == address + [];
    RequestTable(request);
  }

  /** The first byte of the stream decides: 5 is SOCKS5, 4 is not supported, anything else is HTTP. */
  lemma FirstByteDecides(chunks: seq<seq<byte>>)
    ensures Flatten(chunks) == [] ==> Shake(chunks) == Exhausted
    ensures Flatten(chunks) != [] ==>
      && (Shake(chunks) == Http <==> Flatten(chunks)[0] !in {4, 5})
      && (Shake(chunks) == Unsupported <==> Flatten(chunks)[0] == 4)
      && (Flatten(chunks)[0] == 5 ==> Shake(chunks) == Negotiation(chunks))
  {
    hide Cut, Flatten, Negotiation;
    NegotiationKind(chunks);
    assert chunks[..|chunks|] == chunks;
    CutIsLeast(chunks, 1, 0);
    match Cut(chunks, 1, 0)
    case None =>
    case Some(i) => CutSplits(chunks, i);
  }

  lemma NegotiationKind(chunks: seq<seq<byte>>)
    ensures !Negotiation(chunks).Http? && !Negotiation(chunks).Unsupported?
  {
    hide InitCall, AuthCall, ParseAddress, Flatten, Cut;
  }

  /** A stage stops at the first read by which enough is buffered, and waits for ever if there is none. */
  lemma {:induction false} CutIsLeast(chunks: seq<seq<byte>>, n: nat, i: nat)
    requires i <= |chunks|
    ensures match Cut(chunks, n, i)
      case None => forall j :: i <= j <= |chunks| ==> |Flatten(chunks[..j])| < n
      case Some(k) => i <= k <= |chunks| && |Flatten(chunks[..k])| >= n && forall j :: i <= j < k ==> |Flatten(chunks[..j])| < n
    decreases |chunks| - i
  {
    hide Flatten;
    if |Flatten(chunks[..i])| < n && i < |chunks| {
      CutIsLeast(chunks, n, i + 1);
    }
  }

  /**
    In every handshake that succeeds, each byte of the stream belongs to the negotiation, to the request,
    to what one of the two decoders dropped, or to the reads left for the relay.
   */
  lemma EveryByteIsAccountedFor(chunks: seq<seq<byte>>) returns (negotiation: seq<byte>, request: seq<byte>)
    requires Shake(chunks).Done?
    ensures var d := Shake(chunks);
      && d.taken <= |chunks|
      && IsNegotiation(negotiation) && InitCall(request) == Init(d.command, d.address)
      && Flatten(chunks) == negotiation + d.lostAuth + (request + d.lostInit + Flatten(chunks[d.taken..]))
  {
    hide Request, Cut, Flatten, InitCall, ParseAddress, MethodsOf;
    var d := Shake(chunks);
    var a := Cut(chunks, 2, 0).value;
    var first := Flatten(chunks[..a]);
    CutSplits(chunks, a);
    negotiation := first[..first[1] as int + 2];
    assert first == negotiation + first[first[1] as int + 2..];
    RequestKeepsLoss(chunks[a..], first[first[1] as int + 2..], a);
    request := RequestAccounted(chunks[a..], d.lostAuth, a);
    assert chunks[a..][d.taken - a..] == chunks[d.taken..];
  }

  lemma RequestAccounted(chunks: seq<seq<byte>>, lostAuth: seq<byte>, earlier: nat) returns (request: seq<byte>)
    requires Request(chunks, lostAuth, earlier).Done?
    ensures var d := Request(chunks, lostAuth, earlier);
      && earlier <= d.taken <= earlier + |chunks|
      && InitCall(request) == Init(d.command, d.address)
      && Flatten(chunks) == request + d.lostInit + Flatten(chunks[d.taken - earlier..])
  {
    hide Cut, Flatten, ParseAddress;
    var used := Cut(chunks, 4, 0).value;
    CutSplits(chunks, used);
    request := RequestPart(Flatten(chunks[..used]));
  }

  /** A buffer that holds a request splits into the request and what follows it. */
  lemma RequestPart(s: seq<byte>) returns (request: seq<byte>)
    requires InitCall(s).Init?
    ensures InitCall(request) == InitCall(s) && s == request + ParseAddress(s[3..]).rest
  {
    hide ParseAddress;
    ParseIsTotal(s[3..]);
    var m := AddressSize(s[3..]) + 3;
    request := s[..m];
    assert request[3..] == s[3..][..m - 3] && s[3..][m - 3..] == s[m..];
    ParseIsTotal(request[3..]);
    ParseReads(s[3..], request[3..]);
  }
}
