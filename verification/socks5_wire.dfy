/** The SOCKS5 messages of RFC 1928 and RFC 1929, as their senders print them. */
module Socks5Wire {
  import opened Net

  const VERSION: Byte := 5
  const AUTH_VERSION: Byte := 1
  const NO_AUTH: Byte := 0
  const PASSWORD: Byte := 2
  const NO_ACCEPTABLE: Byte := 0xFF
  const CONNECT: Byte := 1
  const ATYP_IPV4: Byte := 1
  const ATYP_DOMAIN: Byte := 3
  const ATYP_IPV6: Byte := 4
  const REPLY_SUCCESS: Byte := 0
  const REPLY_GENERAL_FAILURE: Byte := 1
  const REPLY_HOST_UNREACHABLE: Byte := 4
  const REPLY_COMMAND_NOT_SUPPORTED: Byte := 7
  const REPLY_ADDRESS_NOT_SUPPORTED: Byte := 8

  datatype Host = Ipv4(v4: seq<Byte>) | Domain(name: seq<Byte>) | Ipv6(v6: seq<Byte>)
  datatype Target = Target(host: Host, port: nat)

  predicate ValidTarget(t: Target) {
    && t.port < 65536
    && match t.host
       case Ipv4(ip) => |ip| == 4
       case Domain(name) => |name| < 256
       case Ipv6(ip) => |ip| == 16
  }

  /** Section 3 of RFC 1928: version identifier and method selection. */
  function Greeting(methods: seq<Byte>): seq<Byte>
    requires |methods| < 256
  {
    [VERSION, |methods| as Byte] + methods
  }

  /** Section 2 of RFC 1929: username and password. */
  function Credentials(username: seq<Byte>, password: seq<Byte>): seq<Byte>
    requires |username| < 256 && |password| < 256
  {
    [AUTH_VERSION, |username| as Byte] + username + [|password| as Byte] + password
  }

  function AddressType(h: Host): Byte {
    match h
    case Ipv4(_) => ATYP_IPV4
    case Domain(_) => ATYP_DOMAIN
    case Ipv6(_) => ATYP_IPV6
  }

  function Address(t: Target): seq<Byte>
    requires ValidTarget(t)
  {
    match t.host
    case Ipv4(ip) => ip
    case Domain(name) => [|name| as Byte] + name
    case Ipv6(ip) => ip
  }

  /** Section 4 of RFC 1928: a CONNECT request. */
  function Request(reserved: Byte, t: Target): seq<Byte>
    requires ValidTarget(t)
  {
    [VERSION, CONNECT, reserved, AddressType(t.host)] + Address(t) + PortBytes(t.port)
  }

  /** The four header bytes of a request, and what follows them. */
  lemma RequestSplit(s: seq<Byte>, reserved: Byte, t: Target, rest: seq<Byte>)
    requires ValidTarget(t)
    ensures s == Request(reserved, t) + rest <==>
            && |s| >= 4 && s[0] == VERSION && s[1] == CONNECT && s[2] == reserved && s[3] == AddressType(t.host)
            && s[4..] == Address(t) + PortBytes(t.port) + rest
  {
    var head := [VERSION, CONNECT, reserved, AddressType(t.host)];
    var tail := Address(t) + PortBytes(t.port) + rest;
    assert Request(reserved, t) + rest == head + tail;
    assert (head + tail)[4..] == tail;
    if |s| >= 4 {
      assert s == [s[0], s[1], s[2], s[3]] + s[4..];
    }
  }

  function Zeros(n: nat): (z: seq<Byte>)
    ensures |z| == n
  {
    seq(n, _ => 0)
  }

  /** Section 6 of RFC 1928, as sendReply prints it: an all-zero bound address of either family. */
  function Reply(code: Byte, addrType: Byte): seq<Byte> {
    [VERSION, code, 0, if addrType == ATYP_IPV6 then ATYP_IPV6 else ATYP_IPV4]
    + Zeros(if addrType == ATYP_IPV6 then 16 else 4) + [0, 0]
  }

  /** How a client of section 6 reads a reply: its code and the bytes after it. */
  function ParseReply(s: seq<Byte>): Option<(Byte, seq<Byte>)> {
    if |s| < 5 || s[0] != VERSION then None
    else
      var length :=
        if s[3] == ATYP_IPV4 then 10
        else if s[3] == ATYP_IPV6 then 22
        else if s[3] == ATYP_DOMAIN then 7 + (s[4] as nat)
        else 0;
      if length == 0 || |s| < length then None else Some((s[1], s[length..]))
  }

  /** Every reply is self-delimiting, whatever ATYP byte the request carried; only IPv6 ones are not 10 octets. */
  lemma ReplyDelimited(code: Byte, addrType: Byte, rest: seq<Byte>)
    ensures ParseReply(Reply(code, addrType) + rest) == Some((code, rest))
    ensures addrType != 4 ==> Reply(code, addrType) == [5, code, 0, 1, 0, 0, 0, 0, 0, 0]
    ensures addrType == 4 ==> Reply(code, addrType) == [5, code, 0, 4] + seq(18, _ => 0)
    ensures |Reply(code, addrType)| == 10 <==> addrType != ATYP_IPV6
    ensures addrType == ATYP_IPV6 ==> |Reply(code, addrType)| == 22
  {
    var reply := Reply(code, addrType);
    assert (reply + rest)[|reply|..] == rest;
  }

  /** Two bytes, most significant first. */
  function U16(hi: Byte, lo: Byte): (n: nat)
    ensures n < 65536 && n / 256 == hi && n % 256 == lo
  {
    (hi as nat) * 256 + (lo as nat)
  }

  function PortBytes(port: nat): (bytes: seq<Byte>)
    requires port < 65536
    ensures |bytes| == 2 && U16(bytes[0], bytes[1]) == port
  {
    [port / 256, port % 256]
  }

  /** What the server's readAddress and processRequest accept: target and bytes left over. */
  function ParseAddress(addrType: Byte, s: seq<Byte>): (r: Option<(Target, seq<Byte>)>)
    ensures r.Some? ==> ValidTarget(r.value.0)
  {
    if addrType == ATYP_IPV4 then
      if |s| < 6 then None else Some((Target(Ipv4(s[..4]), U16(s[4], s[5])), s[6..]))
    else if addrType == ATYP_DOMAIN then
      if |s| < 1 || |s| < (s[0] as nat) + 3 then None
      else
        var n: nat := s[0];
        Some((Target(Domain(s[1..n + 1]), U16(s[n + 1], s[n + 2])), s[n + 3..]))
    else if addrType == ATYP_IPV6 then
      if |s| < 18 then None else Some((Target(Ipv6(s[..16]), U16(s[16], s[17])), s[18..]))
    else None
  }

  lemma AddressReadBack(s: seq<Byte>, t: Target, rest: seq<Byte>)
    requires ValidTarget(t) && s == Address(t) + PortBytes(t.port) + rest
    ensures ParseAddress(AddressType(t.host), s) == Some((t, rest))
  {
    var n := |Address(t)|;
    assert s[..n] == Address(t) && s[n..n + 2] == PortBytes(t.port) && s[n + 2..] == rest;
    assert s[n] == PortBytes(t.port)[0] && s[n + 1] == PortBytes(t.port)[1];
    if t.host.Domain? {
      assert s[1..n] == Address(t)[1..] == t.host.name;
    }
  }

  lemma AddressWasPrinted(addrType: Byte, s: seq<Byte>, t: Target, rest: seq<Byte>)
    requires ParseAddress(addrType, s) == Some((t, rest))
    ensures addrType == AddressType(t.host) && s == Address(t) + PortBytes(t.port) + rest
  {
    var n := if addrType == ATYP_IPV4 then 4 else if addrType == ATYP_IPV6 then 16 else 1 + (s[0] as nat);
    assert s == s[..n] + [s[n], s[n + 1]] + s[n + 2..];
    assert PortBytes(t.port) == [s[n], s[n + 1]];
    if addrType == ATYP_DOMAIN {
      assert s[..n] == [s[0]] + s[1..n];
    }
  }

  /** Reading an address inverts printing it, in both directions. */
  lemma AddressRoundTrip(addrType: Byte, s: seq<Byte>, t: Target, rest: seq<Byte>)
    requires ValidTarget(t)
    ensures ParseAddress(addrType, s) == Some((t, rest)) <==>
            addrType == AddressType(t.host) && s == Address(t) + PortBytes(t.port) + rest
  {
    if addrType == AddressType(t.host) && s == Address(t) + PortBytes(t.port) + rest {
      AddressReadBack(s, t, rest);
    }
    if ParseAddress(addrType, s) == Some((t, rest)) {
      AddressWasPrinted(addrType, s, t, rest);
    }
  }
}
