/**
  SOCKS5 wire formats (RFC 1928): addresses (section 5), UDP datagrams (section 7) and the decoders of
  the method negotiation (section 3) and the request (section 4). A SOCKS5 address has the same two
  forms as the tunnel's own, so `Messages.Address` stands for both.
 */
module Socks5 {
  import opened Wrappers
  import opened Octets
  import opened Utf8
  import opened Messages

  const SOCKS_V5: byte := 5
  const SOCKS_V4: byte := 4
  const IPV4_FLAG: byte := 1
  const DOMAIN_FLAG: byte := 3
  const IPV6_FLAG: byte := 4

  /** The domain "0", and the "127.0.0.1" the parser puts in its place. */
  const ZERO: seq<byte> := [0x30]
  const LOCALHOST: seq<byte> := [0x31, 0x32, 0x37, 0x2E, 0x30, 0x2E, 0x30, 0x2E, 0x31]

  datatype ParseError = InputExhausted | InvalidFormat(flag: byte)

  datatype AddressParse = AddressParse(result: Result<Address, ParseError>, rest: seq<byte>)

  function Port(s: seq<byte>): u16
    requires |s| == 2
  {
    Pow256Values();
    FromBe(s)
  }

  /** A domain as the parser reads it: ill-formed UTF-8 is replaced, and "0" means this host. */
  function HostName(raw: seq<byte>): Str {
    LossyIsValid(raw);
    AsciiIsValid(LOCALHOST);
    if Lossy(raw) == ZERO then LOCALHOST else Lossy(raw)
  }

  lemma ZeroIsHere()
    ensures HostName(ZERO) == LOCALHOST
  {
    AsciiIsValid(ZERO);
    LossyKeepsValid(ZERO);
  }

  function ParseAddress(s: seq<byte>): AddressParse {
    if s == [] then AddressParse(Err(InputExhausted), s) else
    var flag, s1 := s[0], s[1..];
    if flag == IPV4_FLAG then
      if |s1| < 6 then AddressParse(Err(InputExhausted), s1)
      else AddressParse(Ok(Ip(V4(s1[..4], Port(s1[4..6])))), s1[6..])
    else if flag == IPV6_FLAG then
      if |s1| < 18 then AddressParse(Err(InputExhausted), s1)
      else AddressParse(Ok(Ip(V6(s1[..16], Port(s1[16..18]), 0, 0))), s1[18..])
    else if flag == DOMAIN_FLAG then
      if |s1| < 1 then AddressParse(Err(InputExhausted), s1) else
      var n: nat, s2 := s1[0], s1[1..];
      if |s2| < n + 2 then AddressParse(Err(InputExhausted), s2)
      else AddressParse(Ok(Domain(HostName(s2[..n]), Port(s2[n..n + 2]))), s2[n + 2..])
    else AddressParse(Err(InvalidFormat(flag)), s1)
  }

  function PrintAddress(a: Address): seq<byte> {
    match a
    case Ip(V4(ip, port)) => [IPV4_FLAG] + (ip + Be(port, 2))
    case Ip(V6(ip, port, _, _)) => [IPV6_FLAG] + (ip + Be(port, 2))
    case Domain(host, port) => [DOMAIN_FLAG, |host| % 256] + (host + Be(port, 2))
  }

  method Parse(input: BytesMut) returns (result: Result<Address, ParseError>)
    modifies input
    ensures AddressParse(result, input.data) == ParseAddress(old(input.data))
  {
    if |input.data| == 0 {
      return Err(InputExhausted);
    }
    var flag := input.GetU8();
    if flag == IPV4_FLAG {
      if |input.data| < 6 {
        return Err(InputExhausted);
      }
      var ip := input.SplitTo(4);
      assert input.data[..2] == old(input.data)[1..][4..6];
      var port := input.GetU16();
      assert input.data == old(input.data)[1..][6..];
      return Ok(Ip(V4(ip, port)));
    } else if flag == IPV6_FLAG {
      if |input.data| < 18 {
        return Err(InputExhausted);
      }
      var ip := input.SplitTo(16);
      assert input.data[..2] == old(input.data)[1..][16..18];
      var port := input.GetU16();
      assert input.data == old(input.data)[1..][18..];
      return Ok(Ip(V6(ip, port, 0, 0)));
    } else if flag == DOMAIN_FLAG {
      if |input.data| < 1 {
        return Err(InputExhausted);
      }
      var n: nat := input.GetU8();
      if |input.data| < n + 2 {
        return Err(InputExhausted);
      }
      ghost var s2 := input.data;
      var raw := input.SplitTo(n);
      var host := HostName(raw);
      assert input.data[..2] == s2[n..n + 2];
      var port := input.GetU16();
      assert input.data == s2[n + 2..];
      return Ok(Domain(host, port));
    } else {
      return Err(InvalidFormat(flag));
    }
  }

  method Print(a: Address) returns (bytes: seq<byte>)
    ensures bytes == PrintAddress(a)
  {
    hide Be;
    var result := new BytesMut([]);
    match a {
      case Ip(V4(ip, port)) =>
        result.PutU8(IPV4_FLAG);
        result.Put(ip);
        result.PutU16(port);
      case Ip(V6(ip, port, _, _)) =>
        result.PutU8(IPV6_FLAG);
        result.Put(ip);
        result.PutU16(port);
      case Domain(host, port) =>
        result.PutU8(DOMAIN_FLAG);
        result.PutU8(|host| % 256);
        result.Put(host);
        result.PutU16(port);
    }
    bytes := result.data;
  }

  // ----- the parser is total and prefix-free -----

  /** How many bytes an address takes, told by its first one or two bytes. */
  function AddressSize(s: seq<byte>): nat
    requires |s| >= 2
  {
    if s[0] == IPV4_FLAG then 7 else if s[0] == IPV6_FLAG then 19 else s[1] as int + 4
  }

  predicate KnownFlag(flag: byte) {
    flag == IPV4_FLAG || flag == IPV6_FLAG || flag == DOMAIN_FLAG
  }

  /**
    On every byte string: the format is invalid exactly when the first byte is no known flag; parsing
    succeeds exactly when the whole address is there, and then takes just its 7, 19 or 4 + n bytes.
   */
  lemma ParseIsTotal(s: seq<byte>)
    ensures var p := ParseAddress(s);
      && (p.result == Err(InputExhausted) <==> s == [] || (KnownFlag(s[0]) && (|s| < 2 || |s| < AddressSize(s))))
      && (p.result.Err? && p.result.error.InvalidFormat? <==> s != [] && !KnownFlag(s[0]))
      && (p.result.Ok? ==> |s| >= 2 && p.rest == s[AddressSize(s)..])
  {
  }

  /** Bytes behind an address are left alone. */
  lemma ParseExtends(s: seq<byte>, x: seq<byte>)
    requires ParseAddress(s).result.Ok?
    ensures ParseAddress(s + x) == AddressParse(ParseAddress(s).result, ParseAddress(s).rest + x)
  {
    hide ParseAddress;
    ParseIsTotal(s);
    ParseIsTotal(s + x);
    var n := AddressSize(s);
    assert (s + x)[..n] == s[..n] && (s + x)[n..] == s[n..] + x;
    ParseReads(s, s + x);
  }

  lemma SlicesAgree(s: seq<byte>, t: seq<byte>, n: nat, i: nat, j: nat)
    requires i <= j <= n <= |s| && n <= |t| && s[..n] == t[..n]
    ensures s[i..j] == t[i..j]
  {
    assert s[i..j] == s[..n][i..j] && t[i..j] == t[..n][i..j];
  }

  lemma DropSlice(s: seq<byte>, d: nat, i: nat, j: nat)
    requires i <= j && d + j <= |s|
    ensures s[d..][i..j] == s[d + i..d + j]
  {
  }

  /** Where the parser finds the parts of an address. */
  lemma ParseParts(s: seq<byte>)
    requires |s| >= 2 && KnownFlag(s[0]) && AddressSize(s) <= |s|
    ensures var n := AddressSize(s);
      ParseAddress(s).result ==
        if s[0] == IPV4_FLAG then Ok(Ip(V4(s[1..n - 2], Port(s[n - 2..n]))))
        else if s[0] == IPV6_FLAG then Ok(Ip(V6(s[1..n - 2], Port(s[n - 2..n]), 0, 0)))
        else Ok(Domain(HostName(s[2..n - 2]), Port(s[n - 2..n])))
  {
    hide HostName, Port;
    var n := AddressSize(s);
    if s[0] == DOMAIN_FLAG {
      assert s[1..][1..] == s[2..];
      DropSlice(s, 2, 0, n - 4);
      DropSlice(s, 2, n - 4, n - 2);
    } else {
      DropSlice(s, 1, 0, n - 3);
      DropSlice(s, 1, n - 3, n - 1);
    }
  }

  /** The parsed address depends only on its own bytes. */
  lemma ParseReads(s: seq<byte>, t: seq<byte>)
    requires |s| >= 2 && |t| >= 2 && KnownFlag(s[0])
    requires AddressSize(s) <= |s| && AddressSize(s) <= |t| && s[..AddressSize(s)] == t[..AddressSize(s)]
    ensures ParseAddress(s).result == ParseAddress(t).result
  {
    hide HostName, Port, ParseAddress;
    var n := AddressSize(s);
    assert s[0] == s[..n][0] == t[0] && s[1] == s[..n][1] == t[1];
    ParseParts(s);
    ParseParts(t);
    SlicesAgree(s, t, n, n - 2, n);
    SlicesAgree(s, t, n, 1, n - 2);
    if s[0] == DOMAIN_FLAG {
      SlicesAgree(s, t, n, 2, n - 2);
    }
  }

  /** No proper prefix of an address is an address. */
  lemma ParsePrefixFree(s: seq<byte>, k: nat)
    requires ParseAddress(s).result.Ok? && k < |s| - |ParseAddress(s).rest|
    ensures ParseAddress(s[..k]).result == Err(InputExhausted)
  {
    ParseIsTotal(s);
    ParseIsTotal(s[..k]);
  }

  // ----- round trips -----

  lemma PortRoundTrip(port: u16)
    ensures Port(Be(port, 2)) == port
  {
    Pow256Values();
    BeRoundTrip(port, 2);
  }

  lemma PortUnique(s: seq<byte>)
    requires |s| == 2
    ensures Be(Port(s), 2) == s
  {
    BeUnique(s);
  }

  /** The addresses the printer writes without loss. */
  predicate Printable(a: Address) {
    match a
    case Ip(V4(_, _)) => true
    case Ip(V6(_, _, flow, scope)) => flow == 0 && scope == 0
    case Domain(host, _) => |host| <= 255 && host != ZERO
  }

  lemma ThreeParts(a: seq<byte>, b: seq<byte>, c: seq<byte>)
    ensures var s := a + b + c;
      s[..|a|] == a && s[|a|..|a| + |b|] == b && s[|a| + |b|..] == c
  {
  }

  /** How the parser reads a printed V4 or V6 address. */
  lemma ParseIp(ip: seq<byte>, port: u16, tail: seq<byte>)
    requires |ip| == 4 || |ip| == 16
    ensures ParseAddress([if |ip| == 4 then IPV4_FLAG else IPV6_FLAG] + (ip + Be(port, 2)) + tail)
         == AddressParse(Ok(Ip(if |ip| == 4 then V4(ip, port) else V6(ip, port, 0, 0))), tail)
  {
    hide Port;
    var s := [if |ip| == 4 then IPV4_FLAG else IPV6_FLAG] + (ip + Be(port, 2)) + tail;
    assert s[1..] == ip + Be(port, 2) + tail;
    ThreeParts(ip, Be(port, 2), tail);
    PortRoundTrip(port);
  }

  /**
    A printed address followed by anything parses back to itself, leaving exactly what follows, if
    and only if it is a V4 address, a V6 address without flow and scope, or a domain of at most 255
    bytes other than "0".
   */
  lemma AddressRoundTripExactly(a: Address, tail: seq<byte>)
    ensures ParseAddress(PrintAddress(a) + tail) == AddressParse(Ok(a), tail) <==> Printable(a)
  {
    hide ParseAddress;
    match a
    case Ip(V4(ip, port)) => ParseIp(ip, port, tail);
    case Ip(V6(ip, port, _, _)) => ParseIp(ip, port, tail);
    case Domain(host, port) => DomainRoundTripExactly(host, port, tail);
  }

  /** How the parser reads a domain whose length byte is right. */
  lemma ParseDomain(raw: seq<byte>, port: u16, tail: seq<byte>)
    requires |raw| <= 255
    ensures ParseAddress([DOMAIN_FLAG, |raw|] + (raw + Be(port, 2)) + tail)
         == AddressParse(Ok(Domain(HostName(raw), port)), tail)
  {
    hide HostName, Port;
    var s := [DOMAIN_FLAG, |raw|] + (raw + Be(port, 2)) + tail;
    assert s[1..][1..] == raw + Be(port, 2) + tail;
    ThreeParts(raw, Be(port, 2), tail);
    PortRoundTrip(port);
  }

  lemma DomainRoundTripExactly(host: Str, port: u16, tail: seq<byte>)
    ensures ParseAddress(PrintAddress(Domain(host, port)) + tail) == AddressParse(Ok(Domain(host, port)), tail)
       <==> (|host| <= 255 && host != ZERO)
  {
    hide ParseAddress, HostName;
    if |host| <= 255 {
      ParseDomain(host, port, tail);
      HostNameKeeps(host);
    } else {
      ParseIsTotal(PrintAddress(Domain(host, port)) + tail);
    }
  }

  /** The address on the wire is a domain that the parser does not rewrite, or no domain at all. */
  predicate KeptVerbatim(s: seq<byte>)
    requires ParseAddress(s).result.Ok?
  {
    ParseIsTotal(s);
    s[0] == DOMAIN_FLAG ==> (var raw := s[2..s[1] as int + 2]; ValidUtf8(raw) && raw != ZERO)
  }

  /** Printing what was parsed reproduces the bytes exactly when the domain is well-formed and not "0". */
  lemma PrintParsedExactly(s: seq<byte>)
    requires ParseAddress(s).result.Ok?
    ensures PrintAddress(ParseAddress(s).result.value) + ParseAddress(s).rest == s <==> KeptVerbatim(s)
  {
    ParseIsTotal(s);
    if s[0] == DOMAIN_FLAG {
      PrintParsedDomain(s);
    } else {
      var k := if s[0] == IPV4_FLAG then 4 else 16;
      var s1 := s[1..];
      PortUnique(s1[k..k + 2]);
      assert s == [s[0]] + (s1[..k] + s1[k..k + 2]) + s1[k + 2..];
    }
  }

  lemma HostNameKeeps(raw: seq<byte>)
    ensures HostName(raw) == raw <==> ValidUtf8(raw) && raw != ZERO
  {
    LossyIdentity(raw);
    LossyIsValid(raw);
  }

  /** The parts of a domain address. */
  lemma DomainParts(s: seq<byte>)
    requires ParseAddress(s).result.Ok? && s[0] == DOMAIN_FLAG
    ensures |s| >= 2 && |s| >= 4 + s[1] as int
    ensures var n: nat := s[1];
      && ParseAddress(s).result.value == Domain(HostName(s[2..2 + n]), Port(s[2 + n..4 + n]))
      && ParseAddress(s).rest == s[4 + n..]
      && s == [DOMAIN_FLAG, n] + (s[2..2 + n] + s[2 + n..4 + n]) + s[4 + n..]
  {
    hide HostName, Port, ParseAddress;
    ParseIsTotal(s);
    ParseParts(s);
  }

  /** Two layouts of a domain address are the same exactly when their domains are. */
  lemma SameDomain(a: seq<byte>, b: seq<byte>, port: seq<byte>, rest: seq<byte>)
    requires |b| <= 255
    ensures [DOMAIN_FLAG, |a| % 256] + (a + port) + rest == [DOMAIN_FLAG, |b|] + (b + port) + rest <==> a == b
  {
    var s, t := [DOMAIN_FLAG, |a| % 256] + (a + port) + rest, [DOMAIN_FLAG, |b|] + (b + port) + rest;
    if s == t {
      assert |a| == |b|;
      assert a == s[2..2 + |a|] == t[2..2 + |b|] == b;
    }
  }

  lemma PrintParsedDomain(s: seq<byte>)
    requires ParseAddress(s).result.Ok? && s[0] == DOMAIN_FLAG
    ensures PrintAddress(ParseAddress(s).result.value) + ParseAddress(s).rest == s <==> KeptVerbatim(s)
  {
    DomainParts(s);
    hide ParseAddress, HostName, Port;
    var n: nat := s[1];
    var raw, portBytes, rest := s[2..2 + n], s[2 + n..4 + n], s[4 + n..];
    PortUnique(portBytes);
    HostNameKeeps(raw);
    SameDomain(HostName(raw), raw, portBytes, rest);
  }

  // ----- UDP datagrams -----

  datatype Datagram = Datagram(frag: byte, address: Address, data: seq<byte>)

  datatype DatagramError = NoRemaining | BadAddress(error: ParseError)

  function ParseDatagram(s: seq<byte>): Result<Datagram, DatagramError> {
    if |s| < 3 then Err(NoRemaining) else
    var p := ParseAddress(s[3..]);
    match p.result
    case Err(error) => Err(BadAddress(error))
    case Ok(address) => Ok(Datagram(s[2], address, p.rest))
  }

  function PrintDatagram(d: Datagram): seq<byte> {
    [0, 0, d.frag] + (PrintAddress(d.address) + d.data)
  }

  method ReadDatagram(src: BytesMut) returns (r: Result<Datagram, DatagramError>)
    modifies src
    ensures r == ParseDatagram(old(src.data))
  {
    if |src.data| == 0 {
      return Err(NoRemaining);
    }
    if |src.data| < 2 {
      return Err(NoRemaining);
    }
    var _ := src.GetU16();
    if |src.data| < 1 {
      return Err(NoRemaining);
    }
    var frag := src.GetU8();
    assert src.data == old(src.data)[3..];
    var address := Parse(src);
    match address
    case Err(error) => r := Err(BadAddress(error));
    case Ok(a) => r := Ok(Datagram(frag, a, src.data));
  }

  method WriteDatagram(d: Datagram) returns (bytes: seq<byte>)
    ensures bytes == PrintDatagram(d)
  {
    var result := new BytesMut([]);
    result.PutU16(0);
    assert Be(0, 2) == [0, 0] by {
      assert Be(0, 1) == Be(0, 0) + [0];
    }
    result.PutU8(d.frag);
    var address := Print(d.address);
    result.Put(address);
    result.Put(d.data);
    Assoc([0, 0, d.frag], PrintAddress(d.address), d.data);
    bytes := result.data;
  }

  /** A printed datagram parses back to itself exactly when its address does. */
  lemma DatagramRoundTripExactly(d: Datagram)
    ensures ParseDatagram(PrintDatagram(d)) == Ok(d) <==> Printable(d.address)
  {
    assert PrintDatagram(d)[3..] == PrintAddress(d.address) + d.data;
    AddressRoundTripExactly(d.address, d.data);
    var p := ParseAddress(PrintAddress(d.address) + d.data);
    if p.result == Ok(d.address) && p.rest != d.data {
      assert ParseDatagram(PrintDatagram(d)) != Ok(d);
    }
  }

  /** Printing a parsed datagram zeroes its two reserved bytes and changes nothing else, exactly when its domain is kept. */
  lemma DatagramRewrittenExactly(s: seq<byte>)
    requires ParseDatagram(s).Ok?
    ensures PrintDatagram(ParseDatagram(s).value) == [0, 0] + s[2..] <==> KeptVerbatim(s[3..])
  {
    PrintParsedExactly(s[3..]);
    var d := ParseDatagram(s).value;
    var body := PrintAddress(d.address) + d.data;
    assert PrintDatagram(d)[3..] == body && ([0, 0] + s[2..])[3..] == s[3..];
    if body == s[3..] {
      assert PrintDatagram(d) == [0, 0] + s[2..];
    }
  }

  // ----- method negotiation and request decoders -----

  datatype AuthMethod = NoAuthentication | GssApi | UsernamePassword | IanaAssigned | PrivateMethods | NoAcceptable

  function MethodOf(b: byte): AuthMethod {
    match b
    case 0 => NoAuthentication
    case 1 => GssApi
    case 2 => UsernamePassword
    case 3 => IanaAssigned
    case 8 => PrivateMethods
    case 16 => NoAcceptable
    case _ => NoAuthentication
  }

  function MethodsOf(s: seq<byte>): seq<AuthMethod> {
    seq(|s|, i requires 0 <= i < |s| => MethodOf(s[i]))
  }

  datatype AuthOutcome =
    | AuthIncomplete
    | AuthVersion(version: byte)
    | AuthPanics  // the program panics when a method is missing from the buffer
    | Auth(methods: seq<AuthMethod>)

  /** The negotiation takes 2 + n bytes, all of which must be buffered once 2 are. */
  function AuthCall(s: seq<byte>): AuthOutcome {
    if |s| < 2 then AuthIncomplete
    else if s[0] != SOCKS_V5 then AuthVersion(s[0])
    else if |s| - 2 < s[1] then AuthPanics
    else Auth(MethodsOf(s[2..2 + s[1]]))
  }

  method DecodeAuth(src: BytesMut) returns (outcome: AuthOutcome)
    modifies src
    ensures outcome == AuthCall(old(src.data))
    ensures outcome.AuthIncomplete? ==> src.data == old(src.data)
    ensures outcome.Auth? ==> src.data == old(src.data)[2 + old(src.data)[1]..]
  {
    if |src.data| < 2 {
      return AuthIncomplete;
    }
    var version := src.GetU8();
    if version != SOCKS_V5 {
      return AuthVersion(version);
    }
    var number := src.GetU8();
    ghost var rest := src.data;
    assert rest == old(src.data)[2..];
    var methods := [];
    for i := 0 to number
      invariant i <= |rest| && src.data == rest[i..]
      invariant methods == MethodsOf(rest[..i])
    {
      if |src.data| == 0 {
        return AuthPanics;
      }
      var code := src.GetU8();
      methods := methods + [MethodOf(code)];
    }
    assert rest[..number] == old(src.data)[2..2 + number];
    return Auth(methods);
  }

  datatype Command = Connect | Bind | UdpAssociate

  function CommandOf(b: byte): Option<Command> {
    match b
    case 1 => Some(Connect)
    case 2 => Some(Bind)
    case 3 => Some(UdpAssociate)
    case _ => None
  }

  datatype InitOutcome =
    | InitIncomplete
    | InitVersion(version: byte)
    | InitCommand(code: byte)
    | InitAddress(error: ParseError)
    | Init(command: Command, address: Address)

  function InitCall(s: seq<byte>): InitOutcome {
    if |s| < 4 then InitIncomplete
    else if s[0] != SOCKS_V5 then InitVersion(s[0])
    else match CommandOf(s[1])
    case None => InitCommand(s[1])
    case Some(command) =>
      match ParseAddress(s[3..]).result
      case Err(error) => InitAddress(error)
      case Ok(address) => Init(command, address)
  }

  method DecodeInit(src: BytesMut) returns (outcome: InitOutcome)
    modifies src
    ensures outcome == InitCall(old(src.data))
    ensures outcome.InitIncomplete? ==> src.data == old(src.data)
    ensures outcome.Init? ==> src.data == ParseAddress(old(src.data)[3..]).rest
  {
    if |src.data| < 4 {
      return InitIncomplete;
    }
    var version := src.GetU8();
    if version != SOCKS_V5 {
      return InitVersion(version);
    }
    var code := src.GetU8();
    var command := CommandOf(code);
    if command.None? {
      return InitCommand(code);
    }
    var _ := src.GetU8();
    assert src.data == old(src.data)[3..];
    var address := Parse(src);
    match address
    case Err(error) => outcome := InitAddress(error);
    case Ok(a) => outcome := Init(command.value, a);
  }
}
