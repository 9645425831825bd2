/** SOCKS5 messages byte by byte: the literal codes of RFC 1928 and what each buffer is taken for. */
module SocksFormat {
  import opened Wrappers
  import opened Octets
  import opened Utf8
  import opened Messages
  import opened WireFormat
  import opened Socks5

  // ----- addresses -----

  lemma PrintedIp(ip: seq<byte>, port: u16, flow: u32, scope: u32)
    ensures |ip| == 4 ==> PrintAddress(Ip(V4(ip, port))) == [1] + (ip + Be(port, 2))
    ensures |ip| == 16 ==> PrintAddress(Ip(V6(ip, port, flow, scope))) == [4] + (ip + Be(port, 2))
  {
    hide Be;
  }

  lemma PrintedDomain(host: Str, port: u16)
    ensures PrintAddress(Domain(host, port)) == [3, |host| % 256] + (host + Be(port, 2))
  {
    hide Be;
  }

  /** 1, four address bytes and the port, most significant byte first. */
  lemma V4Bytes(ip: Octets4, hi: byte, lo: byte, tail: seq<byte>)
    ensures ParseAddress([1] + (ip + [hi, lo]) + tail) == AddressParse(Ok(Ip(V4(ip, 256 * hi + lo))), tail)
    ensures PrintAddress(Ip(V4(ip, 256 * hi + lo))) == [1] + (ip + [hi, lo])
  {
    hide ParseAddress, PrintAddress, Be;
    TwoDigits(hi, lo);
    ParseIp(ip, 256 * hi + lo, tail);
    PrintedIp(ip, 256 * hi + lo, 0, 0);
  }

  /** 4, sixteen address bytes and the port. */
  lemma V6Bytes(ip: Octets16, hi: byte, lo: byte, flow: u32, scope: u32, tail: seq<byte>)
    ensures ParseAddress([4] + (ip + [hi, lo]) + tail) == AddressParse(Ok(Ip(V6(ip, 256 * hi + lo, 0, 0))), tail)
    ensures PrintAddress(Ip(V6(ip, 256 * hi + lo, flow, scope))) == [4] + (ip + [hi, lo])
  {
    hide ParseAddress, PrintAddress, Be;
    TwoDigits(hi, lo);
    ParseIp(ip, 256 * hi + lo, tail);
    PrintedIp(ip, 256 * hi + lo, flow, scope);
  }

  /** 3, the length of the domain, its bytes and the port. */
  lemma DomainBytes(raw: seq<byte>, hi: byte, lo: byte, tail: seq<byte>)
    requires |raw| <= 255
    ensures ParseAddress([3, |raw|] + (raw + [hi, lo]) + tail) == AddressParse(Ok(Domain(HostName(raw), 256 * hi + lo)), tail)
  {
    hide ParseAddress, Be, HostName, ValidUtf8;
    TwoDigits(hi, lo);
    ParseDomain(raw, 256 * hi + lo, tail);
  }

  /** A domain is printed with the low byte of its length, however long it is. */
  lemma HostBytes(host: Str, hi: byte, lo: byte)
    ensures PrintAddress(Domain(host, 256 * hi + lo)) == [3, |host| % 256] + (host + [hi, lo])
  {
    hide PrintAddress, Be, ValidUtf8;
    TwoDigits(hi, lo);
    PrintedDomain(host, 256 * hi + lo);
  }

  /** The domain "0" is this host, every other one its text, ill-formed parts replaced. */
  lemma HostNameExactly(raw: seq<byte>)
    ensures raw == ['0' as byte] ==> |HostName(raw)| == |"127.0.0.1"| && forall i :: 0 <= i < 9 ==> HostName(raw)[i] as char == "127.0.0.1"[i]
    ensures ValidUtf8(raw) && raw != ['0' as byte] ==> HostName(raw) == raw
    ensures !ValidUtf8(raw) ==> HostName(raw) == Lossy(raw)
  {
    ZeroIsHere();
    LossyIdentity(raw);
    LossyNotZero(raw);
  }

  /** Only "0" itself reads as "0". */
  lemma LossyNotZero(raw: seq<byte>)
    ensures Lossy(raw) == ZERO ==> raw == ZERO
  {
    if raw != [] && StartsWithChar(raw) {
      assert raw == raw[..CharRun(raw)] + raw[CharRun(raw)..];
      LossyOfSome(raw[CharRun(raw)..]);
    }
  }

  lemma LossyOfSome(s: seq<byte>)
    ensures s != [] ==> Lossy(s) != []
  {
  }

  /** Two reserved bytes, the fragment, the address, the data. */
  lemma DatagramBytes(r0: byte, r1: byte, frag: byte, address: Address, data: seq<byte>)
    requires Printable(address)
    ensures ParseDatagram([r0, r1, frag] + (PrintAddress(address) + data)) == Ok(Datagram(frag, address, data))
    ensures PrintDatagram(Datagram(frag, address, data)) == [0, 0, frag] + (PrintAddress(address) + data)
  {
    hide ParseAddress, PrintAddress, Printable;
    AddressRoundTripExactly(address, data);
    assert ([r0, r1, frag] + (PrintAddress(address) + data))[3..] == PrintAddress(address) + data;
  }

  /** A datagram is refused if and only if it is shorter than 3 bytes or its address is refused. */
  lemma DatagramRefused(s: seq<byte>)
    ensures ParseDatagram(s) == Err(NoRemaining) <==> |s| < 3
    ensures |s| >= 3 ==> (ParseDatagram(s).Err? <==> ParseAddress(s[3..]).result.Err?)
  {
    hide ParseAddress;
  }

  // ----- method negotiation -----

  /**
    Every buffer in the negotiation: too short, of another version, with methods missing, or a list of
    methods by their codes, where an unknown code means no authentication.
   */
  lemma NegotiationTable(s: seq<byte>)
    ensures AuthCall(s) == AuthIncomplete <==> |s| < 2
    ensures |s| >= 2 && s[0] != 5 <==> |s| >= 1 && AuthCall(s) == AuthVersion(s[0])
    ensures AuthCall(s) == AuthPanics <==> |s| >= 2 && s[0] == 5 && |s| < 2 + s[1] as int
    ensures AuthCall(s).Auth? <==> |s| >= 2 && s[0] == 5 && |s| >= 2 + s[1] as int
    ensures AuthCall(s).Auth? ==> |AuthCall(s).methods| == s[1]
    ensures AuthCall(s).Auth? ==> forall i :: 0 <= i < s[1] ==> IsMethod(s[2 + i], AuthCall(s).methods[i])
  {
  }

  predicate IsMethod(code: byte, m: AuthMethod) {
    && (m == GssApi <==> code == 1)
    && (m == UsernamePassword <==> code == 2)
    && (m == IanaAssigned <==> code == 3)
    && (m == PrivateMethods <==> code == 8)
    && (m == NoAcceptable <==> code == 16)
    && (m == NoAuthentication <==> code !in {1, 2, 3, 8, 16})
  }

  // ----- requests -----

  /** Command 1 is Connect, 2 is Bind, 3 is UdpAssociate. */
  predicate IsCommand(code: byte, command: Command) {
    && (command == Connect <==> code == 1)
    && (command == Bind <==> code == 2)
    && (command == UdpAssociate <==> code == 3)
  }

  /** Every buffer in the request stage: too short, of another version, with another command, or with its address read. */
  lemma RequestTable(s: seq<byte>)
    ensures InitCall(s) == InitIncomplete <==> |s| < 4
    ensures |s| >= 4 && s[0] != 5 <==> |s| >= 1 && InitCall(s) == InitVersion(s[0])
    ensures |s| >= 4 && s[0] == 5 && !(1 <= s[1] <= 3) <==> |s| >= 2 && InitCall(s) == InitCommand(s[1])
    ensures |s| >= 4 && s[0] == 5 && 1 <= s[1] <= 3 ==>
      match ParseAddress(s[3..]).result
      case Ok(address) => InitCall(s).Init? && IsCommand(s[1], InitCall(s).command) && InitCall(s).address == address
      case Err(error) => InitCall(s) == InitAddress(error)
  {
    hide ParseAddress;
  }
}
