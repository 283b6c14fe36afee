/** The health checker: its SOCKS5 probe as bytes on the wire, and its verdict over a series of checks. */
module HealthChecker {
  import opened Net
  import opened Text
  import opened Socks5Wire
  import Socks5Server

  // ----- the end-to-end probe -----

  /** Go's byte(n): the low eight bits. */
  function LowByte(n: int): Byte {
    n % 256
  }

  /** The CONNECT request as checkTrafficThroughSOCKS appends it; the port is whatever Sscanf read. */
  method BuildConnect(h: Host, port: int) returns (request: seq<Byte>)
    ensures request == ConnectRequest(h, port)
  {
    match h {
      case Ipv4(ip) =>
        request := [0x05, 0x01, 0x00, 0x01];
        request := request + ip;
      case Ipv6(ip) =>
        request := [0x05, 0x01, 0x00, 0x04];
        request := request + ip;
      case Domain(name) =>
        request := [0x05, 0x01, 0x00, 0x03, LowByte(|name|)];
        request := request + name;
    }
    request := request + [LowByte(port / 256), LowByte(port)];
  }

  function ConnectRequest(h: Host, port: int): seq<Byte> {
    [VERSION, CONNECT, 0, AddressType(h)]
    + (match h
       case Ipv4(ip) => ip
       case Domain(name) => [LowByte(|name|)] + name
       case Ipv6(ip) => ip)
    + [LowByte(port / 256), LowByte(port)]
  }

  /** The server's reading of a CONNECT request. */
  function ParseConnect(s: seq<Byte>): Option<(Target, seq<Byte>)> {
    if |s| < 4 || s[0] != VERSION || s[1] != CONNECT then None else ParseAddress(s[3], s[4..])
  }

  predicate Recovers(s: seq<Byte>, h: Host, port: int, rest: seq<Byte>) {
    match ParseConnect(s)
    case None => false
    case Some((t, left)) => t.host == h && t.port == port && left == rest
  }

  predicate IpSized(h: Host) {
    (h.Ipv4? ==> |h.v4| == 4) && (h.Ipv6? ==> |h.v6| == 16)
  }

  predicate Encodable(h: Host, port: int) {
    0 <= port < 65536 && (h.Domain? ==> |h.name| < 256)
  }

  lemma EncodedIsRequest(h: Host, port: int)
    requires IpSized(h) && Encodable(h, port)
    ensures ConnectRequest(h, port) == Request(0, Target(h, port))
  {
    PortLow(port);
    if h.Domain? {
      LowByteSmall(|h.name|);
    }
  }

  lemma LowByteSmall(n: int)
    requires 0 <= n < 256
    ensures LowByte(n) == n
  {
  }

  lemma PortLow(port: int)
    requires 0 <= port < 65536
    ensures PortBytes(port) == [LowByte(port / 256), LowByte(port)]
  {
    var hi := port / 256;
    assert 0 <= hi < 256;
    LowByteSmall(hi);
  }

  lemma RequestParses(reserved: Byte, t: Target, rest: seq<Byte>)
    requires ValidTarget(t)
    ensures ParseConnect(Request(reserved, t) + rest) == Some((t, rest))
  {
    RequestSplit(Request(reserved, t) + rest, reserved, t, rest);
    AddressReadBack(Address(t) + PortBytes(t.port) + rest, t, rest);
  }

  /** What comes out of the parser fits the wire, so a target that does not cannot come out. */
  lemma RecoveredFits(s: seq<Byte>, h: Host, port: int, rest: seq<Byte>)
    requires Recovers(s, h, port, rest)
    ensures Encodable(h, port)
  {
    assert ValidTarget(ParseConnect(s).value.0);
  }

  /**
   * The server recovers the target from the probe's request, and leaves exactly what follows it,
   * if and only if the port is a 16-bit number and a domain name has fewer than 256 bytes.
   */
  lemma ConnectRoundTripIff(h: Host, port: int, rest: seq<Byte>)
    requires IpSized(h)
    ensures Recovers(ConnectRequest(h, port) + rest, h, port, rest) <==> Encodable(h, port)
  {
    if Encodable(h, port) {
      EncodedIsRequest(h, port);
      RequestParses(0, Target(h, port), rest);
    }
    if Recovers(ConnectRequest(h, port) + rest, h, port, rest) {
      RecoveredFits(ConnectRequest(h, port) + rest, h, port, rest);
    }
  }

  /** The first port that does not fit wraps to 0, and that is what the server reads. */
  lemma PortWraps(h: Host, rest: seq<Byte>)
    requires IpSized(h) && (h.Domain? ==> |h.name| < 256)
    ensures ParseConnect(ConnectRequest(h, 65536) + rest) == Some((Target(h, 0), rest))
    ensures !Recovers(ConnectRequest(h, 65536) + rest, h, 65536, rest)
  {
    assert ConnectRequest(h, 65536) == ConnectRequest(h, 0);
    EncodedIsRequest(h, 0);
    RequestParses(0, Target(h, 0), rest);
  }

  const NEWLINE: Byte := 10
  const HTTP: seq<Byte> := [72, 84, 84, 80, 47]   // "HTTP/"

  /** ReadString('\n'): the first line, delimiter included, or None when there is no delimiter. */
  function FirstLine(s: seq<Byte>): Option<seq<Byte>> {
    if s == [] then None
    else if s[0] == NEWLINE then Some([s[0]])
    else
      match FirstLine(s[1..])
      case None => None
      case Some(line) => Some([s[0]] + line)
  }

  /** The response starts with an HTTP status line. */
  predicate HttpAnswer(s: seq<Byte>) {
    FirstLine(s).Some? && HTTP <= Trim(FirstLine(s).value, ByteBlanks())
  }

  /**
   * What the probe concludes: one Read takes up to 10 octets of the reply into a zeroed buffer, and
   * HTTP is looked for in what follows.
   */
  function ProbePasses(reply: seq<Byte>, response: seq<Byte>): bool {
    var taken := if |reply| < 10 then |reply| else 10;
    var buffer := reply[..taken] + Zeros(10 - taken);
    taken > 0 && buffer[0] == VERSION && buffer[1] == 0 && HttpAnswer(reply[taken..] + response)
  }

  lemma {:induction false} FirstLineStarts(s: seq<Byte>)
    requires s != [] && FirstLine(s).Some?
    ensures FirstLine(s).value != [] && FirstLine(s).value[0] == s[0]
  {
  }

  /** A zero byte is no blank and starts none, so trimming a line that starts with one leaves it there. */
  lemma ZeroStays(line: seq<Byte>)
    requires line != [] && line[0] == 0
    ensures !(HTTP <= Trim(line, ByteBlanks()))
  {
    ByteBlanksNonZero();
    HeadStays(line, ByteBlanks());
  }

  /**
   * Against replies of the form this repository's server sends, each arriving in one segment: the
   * octets taken are the whole reply exactly for targets that are not IPv6, and the probe passes
   * exactly for a success reply to such a target followed by an HTTP answer. Behind the 22-octet IPv6
   * reply the response is out of step, so no IPv6 target ever passes.
   */
  lemma ProbeIff(code: Byte, addrType: Byte, response: seq<Byte>)
    ensures Reply(code, addrType)[10..] == [] <==> addrType != ATYP_IPV6
    ensures ProbePasses(Reply(code, addrType), response) <==>
            code == REPLY_SUCCESS && addrType != ATYP_IPV6 && HttpAnswer(response)
  {
    var reply := Reply(code, addrType);
    var seen := reply[10..] + response;
    if addrType == ATYP_IPV6 {
      assert seen[0] == 0;
      if FirstLine(seen).Some? {
        FirstLineStarts(seen);
        ZeroStays(FirstLine(seen).value);
      }
    } else {
      assert seen == response;
    }
  }

  lemma {:induction false} FirstLineIs(line: seq<Byte>, rest: seq<Byte>)
    requires 10 !in line
    ensures FirstLine(line + [10] + rest) == Some(line + [10])
  {
    if line == [] {
      assert line + [10] == [10] && (line + [10] + rest)[0] == 10;
    } else {
      assert (line + [10] + rest)[1..] == line[1..] + [10] + rest;
      FirstLineIs(line[1..], rest);
      assert [line[0]] + (line[1..] + [10]) == line + [10];
    }
  }

  lemma {:induction false} FirstLineSplits(s: seq<Byte>) returns (line: seq<Byte>, rest: seq<Byte>)
    ensures FirstLine(s).Some? ==> 10 !in line && s == line + [10] + rest
  {
    line, rest := [], [];
    if s != [] && s[0] == 10 {
      rest := s[1..];
    } else if s != [] {
      var line', rest' := FirstLineSplits(s[1..]);
      line, rest := [s[0]] + line', rest';
      assert FirstLine(s).Some? ==> s == [s[0]] + (line' + [10] + rest');
    }
  }

  /** The text of a line that starts with "HTTP/", as its bytes. */
  function StatusLine(lead: seq<Byte>, text: seq<Byte>): seq<Byte> {
    lead + [72, 84, 84, 80, 47] + text
  }

  lemma StatusLineTrims(lead: seq<seq<Byte>>, text: seq<Byte>)
    requires AllBlank(lead, ByteBlanks())
    ensures [72, 84, 84, 80, 47] <= Trim(StatusLine(Concat(lead), text), ByteBlanks())
  {
    var keep: seq<Byte> := [72, 84, 84, 80, 47];
    var shown := keep + text;
    forall i | 0 <= i < |ByteBlanks()|
      ensures ByteBlanks()[i] != [] && ByteBlanks()[i][0] != shown[0] && 47 !in ByteBlanks()[i]
    {
      ByteBlanksPlain(ByteBlanks()[i]);
      assert ByteBlanks()[i][0] in ByteBlanks()[i];
    }
    ByteBlanksPrefixFree();
    assert StatusLine(Concat(lead), text) == Concat(lead) + shown;
    TrimLeftSkips(lead, shown, ByteBlanks());
    NoLeadingBlank(shown, ByteBlanks());
    TrimRightKeeps(keep, shown, ByteBlanks());
  }

  /** The bytes of a response whose first line, blanks aside, starts with "HTTP/", CRLF or not. */
  predicate Answers(s: seq<Byte>, lead: seq<seq<Byte>>, text: seq<Byte>, rest: seq<Byte>) {
    && AllBlank(lead, ByteBlanks()) && 10 !in Concat(lead) && 10 !in text
    && s == StatusLine(Concat(lead), text) + [10] + rest
  }

  lemma AnswersPass(s: seq<Byte>, lead: seq<seq<Byte>>, text: seq<Byte>, rest: seq<Byte>)
    requires Answers(s, lead, text, rest)
    ensures HttpAnswer(s)
  {
    var line := StatusLine(Concat(lead), text);
    assert 10 !in line;
    FirstLineIs(line, rest);
    assert line + [10] == StatusLine(Concat(lead), text + [10]);
    StatusLineTrims(lead, text + [10]);
  }

  lemma PassingAnswers(s: seq<Byte>) returns (lead: seq<seq<Byte>>, text: seq<Byte>, rest: seq<Byte>)
    requires HttpAnswer(s)
    ensures Answers(s, lead, text, rest)
  {
    var line;
    line, rest := FirstLineSplits(s);
    FirstLineIs(line, rest);
    ByteBlanksNonZero();
    var trail;
    lead, trail := TrimDecomposes(line + [10], ByteBlanks());
    LineAround(line, Concat(lead), Trim(line + [10], ByteBlanks()), Concat(trail));
    text := line[|Concat(lead)| + 5..];
  }

  /** A response passes exactly if it has such a first line. */
  lemma HttpAnswerIff(s: seq<Byte>)
    ensures HttpAnswer(s) <==>
              exists lead: seq<seq<Byte>>, text: seq<Byte>, rest: seq<Byte> :: Answers(s, lead, text, rest)
  {
    if HttpAnswer(s) {
      var lead, text, rest := PassingAnswers(s);
    }
    if lead: seq<seq<Byte>>, text: seq<Byte>, rest: seq<Byte> :| Answers(s, lead, text, rest) {
      AnswersPass(s, lead, text, rest);
    }
  }

  lemma LineAround(line: seq<Byte>, lead: seq<Byte>, middle: seq<Byte>, trail: seq<Byte>)
    requires 10 !in line && line + [10] == lead + middle + trail && [72, 84, 84, 80, 47] <= middle
    ensures |lead| + 5 <= |line| && line[..|lead|] == lead && line[|lead|..|lead| + 5] == [72, 84, 84, 80, 47]
    ensures 10 !in lead && line == StatusLine(lead, line[|lead| + 5..])
  {
    var whole := line + [10];
    var n := |lead|;
    assert whole[..n] == lead && whole[n..n + 5] == middle[..5];
    assert whole[n + 4] == middle[4] == 47 && whole[|line|] == 10;
    assert n + 4 != |line|;
    assert whole[..|line|] == line;
    assert line[..n] == whole[..n] && line[n..n + 5] == whole[n..n + 5];
    assert line == line[..n] + line[n..n + 5] + line[n + 5..];
  }

  const GREETING: seq<Byte> := [0x05, 0x01, 0x00]

  /**
   * The probe against this repository's server, request and answer: for every target that fits the
   * wire the server relays precisely the HTTP request, its output is the method choice and one reply,
   * and the probe passes exactly if the destination can be dialled, is not IPv6 and answers with HTTP.
   */
  lemma ProbeThroughServerIff(h: Host, port: int, http: seq<Byte>, dial: Socks5Server.Dialler, budget: nat)
    requires IpSized(h) && Encodable(h, port)
    requires budget >= Socks5Server.OutputNeeded(Socks5Server.OPEN, Target(h, port))
    ensures var o := Socks5Server.Session(Socks5Server.OPEN, GREETING + (ConnectRequest(h, port) + http), dial, budget);
            var t := Target(h, port);
            var code := if dial(t).Some? then REPLY_SUCCESS else REPLY_HOST_UNREACHABLE;
            && o.relay == (if dial(t).Some? then Some((t, http)) else None)
            && o.output == Socks5Server.Answered(code, t)
            && (ProbePasses(o.output[2..], o.returned) <==> dial(t).Some? && !h.Ipv6? && HttpAnswer(o.returned))
  {
    assert GREETING == Greeting([NO_AUTH]);
    EncodedIsRequest(h, port);
    Socks5Server.OpenSession(Target(h, port), http, dial, budget);
    var o := Socks5Server.Session(Socks5Server.OPEN, GREETING + (ConnectRequest(h, port) + http), dial, budget);
    var code := if dial(Target(h, port)).Some? then REPLY_SUCCESS else REPLY_HOST_UNREACHABLE;
    AnsweredBehindChoice(code, Target(h, port));
    ProbeIff(code, AddressType(h), o.returned);
  }

  lemma AnsweredBehindChoice(code: Byte, t: Target)
    ensures Socks5Server.Answered(code, t)[2..] == Reply(code, AddressType(t.host))
  {
  }

  // ----- the verdict -----

  /** How many checks at the end of the history failed in a row; true stands for a check that passed. */
  function Trailing(history: seq<bool>): nat {
    if history == [] || history[|history| - 1] then 0 else 1 + Trailing(history[..|history| - 1])
  }

  /** The failure that makes a run of failures `limit` long. */
  predicate Trips(history: seq<bool>, i: nat, limit: int)
    requires i < |history|
  {
    Trailing(history[..i + 1]) == limit
  }

  function TripCount(history: seq<bool>, limit: int): nat {
    if history == [] then 0
    else TripCount(history[..|history| - 1], limit) + if Trips(history, |history| - 1, limit) then 1 else 0
  }

  /** A maximal run of failures: history[lo..hi] fails, and it cannot be extended on either side. */
  predicate MaximalRun(history: seq<bool>, lo: nat, hi: nat) {
    && lo < hi <= |history|
    && (forall i :: lo <= i < hi ==> !history[i])
    && (lo == 0 || history[lo - 1])
    && (hi == |history| || history[hi])
  }

  lemma {:induction false} TrailingIs(history: seq<bool>, k: nat)
    ensures Trailing(history) == k <==>
            && k <= |history|
            && (forall i :: |history| - k <= i < |history| ==> !history[i])
            && (k == |history| || history[|history| - k - 1])
  {
    if history != [] {
      var front := history[..|history| - 1];
      if k > 0 {
        TrailingIs(front, k - 1);
      }
    }
  }

  /**
   * In a maximal run of failures the callback is due once, at the limit-th failure, if the run gets
   * that far, and never otherwise.
   */
  lemma RunTripsOnce(history: seq<bool>, lo: nat, hi: nat, limit: nat, i: nat)
    requires MaximalRun(history, lo, hi) && limit >= 1 && lo <= i < hi
    ensures Trips(history, i, limit) <==> i == lo + limit - 1
  {
    var seen := history[..i + 1];
    TrailingIs(seen, i + 1 - lo);
  }

  /** And it is never due outside of one. */
  lemma TripsInARun(history: seq<bool>, i: nat, limit: nat) returns (lo: nat, hi: nat)
    requires i < |history| && limit >= 1 && Trips(history, i, limit)
    ensures MaximalRun(history, lo, hi) && i < hi && i == lo + limit - 1
  {
    TrailingIs(history[..i + 1], limit);
    lo, hi := i + 1 - limit, i + 1;
    forall k | lo <= k < hi
      ensures !history[k]
    {
      assert history[..i + 1][k] == history[k];
    }
    while hi < |history| && !history[hi]
      invariant i < hi <= |history| && forall k :: lo <= k < hi ==> !history[k]
    {
      hi := hi + 1;
    }
  }

  /** The failures at which the callback is due. */
  function Due(history: seq<bool>, limit: int): set<nat> {
    set i | 0 <= i < |history| && Trips(history, i, limit)
  }

  lemma {:induction false} TripCountIs(history: seq<bool>, limit: int)
    ensures TripCount(history, limit) == |Due(history, limit)|
  {
    if history != [] {
      var k := |history| - 1;
      var front := history[..k];
      TripCountIs(front, limit);
      DueGrows(history, limit);
    }
  }

  lemma DueGrows(history: seq<bool>, limit: int)
    requires history != []
    ensures var k := |history| - 1;
            var was := Due(history[..k], limit);
            k !in was && Due(history, limit) == was + if Trips(history, k, limit) then {k} else {}
  {
    var k := |history| - 1;
    forall i | 0 <= i < k
      ensures Trips(history[..k], i, limit) <==> Trips(history, i, limit)
    {
      assert history[..k][..i + 1] == history[..i + 1];
    }
  }

  /** A callback is due at an index exactly if it is the limit-th failure of a maximal run. */
  lemma DueIff(history: seq<bool>, limit: nat, i: nat)
    requires limit >= 1
    ensures i in Due(history, limit) <==>
            exists lo: nat, hi: nat :: MaximalRun(history, lo, hi) && lo <= i < hi && i == lo + limit - 1
  {
    if i in Due(history, limit) {
      var lo, hi := TripsInARun(history, i, limit);
    }
    if lo: nat, hi: nat :| MaximalRun(history, lo, hi) && lo <= i < hi && i == lo + limit - 1 {
      RunTripsOnce(history, lo, hi, limit, i);
    }
  }

  class Checker {
    const maxRetries: int
    var consecutiveFailures: int
    var isHealthy: bool
    ghost var history: seq<bool>
    ghost var fired: nat            // calls of onUnhealthy
    ghost var failovers: nat        // of these, the ones sync.Once let through

    /** Thresholds below one act like one. */
    function Limit(): int {
      if maxRetries < 1 then 1 else maxRetries
    }

    ghost predicate Valid()
      reads this
    {
      && consecutiveFailures == Trailing(history)
      && (isHealthy <==> Trailing(history) < Limit())
      && fired == TripCount(history, Limit())
      && failovers == if fired > 0 then 1 else 0
    }

    constructor (maxRetries: int)
      ensures Valid() && history == [] && this.maxRetries == maxRetries
    {
      this.maxRetries := maxRetries;
      consecutiveFailures, isHealthy := 0, true;
      history, fired, failovers := [], 0, 0;
    }

    method HandleUnhealthy()
      requires Valid()
      modifies this
      ensures Valid() && history == old(history) + [false]
    {
      assert (history + [false])[..|history|] == history;
      assert (history + [false])[..|history| + 1] == history + [false];
      history := history + [false];
      consecutiveFailures := consecutiveFailures + 1;
      var failures := consecutiveFailures;
      if failures >= maxRetries {
        var wasHealthy := isHealthy;
        isHealthy := false;
        if wasHealthy {
          OnUnhealthy();
        }
      }
    }

    /** The callback startHealthMonitoring installs: performFailover behind a sync.Once. */
    method OnUnhealthy()
      modifies `fired, `failovers
      ensures fired == old(fired) + 1
      ensures failovers == if old(fired) == 0 then old(failovers) + 1 else old(failovers)
    {
      if fired == 0 {
        failovers := failovers + 1;
      }
      fired := fired + 1;
    }

    method MarkHealthy()
      requires Valid()
      modifies this
      ensures Valid() && history == old(history) + [true]
    {
      assert (history + [true])[..|history|] == history;
      assert (history + [true])[..|history| + 1] == history + [true];
      history := history + [true];
      isHealthy := true;
      consecutiveFailures := 0;
    }

    /** Any series of check outcomes. */
    method RunChecks(outcomes: seq<bool>)
      requires Valid()
      modifies this
      ensures Valid() && history == old(history) + outcomes
      ensures isHealthy <==> Trailing(history) < if maxRetries < 1 then 1 else maxRetries
      ensures fired == |Due(history, if maxRetries < 1 then 1 else maxRetries)|
      ensures failovers == if fired > 0 then 1 else 0
    {
      for i := 0 to |outcomes|
        invariant Valid() && history == old(history) + outcomes[..i]
      {
        if outcomes[i] {
          MarkHealthy();
        } else {
          HandleUnhealthy();
        }
      }
      TripCountIs(history, Limit());
    }
  }
}
