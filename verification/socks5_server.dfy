/** One connection of the SOCKS5 server, phase by phase over a byte stream that arrives in arbitrary pieces. */
module Socks5Server {
  import opened Net
  import opened Text
  import opened Socks5Wire

  datatype Config = Config(username: seq<Byte>, password: seq<Byte>)

  predicate NeedsAuth(config: Config) {
    config.username != [] || config.password != []
  }

  function Wanted(config: Config): Byte {
    if NeedsAuth(config) then PASSWORD else NO_AUTH
  }

  // ----- what a connection does, as a function of the bytes it will receive -----

  /** `budget` is how many bytes the peer still takes before writing to it fails. */
  datatype Phase = Ended(output: seq<Byte>) | Going(output: seq<Byte>, rest: seq<Byte>, budget: nat)

  /** What a destination that can be dialled will send; None when it cannot be dialled. */
  type Dialler = Target -> Option<seq<Byte>>

  /**
   * `output`: what the server itself writes; `relay`: the destination dialled and the bytes that are
   * left for it; `returned`: what of the destination's bytes is passed back behind the output.
   */
  datatype Outcome = Outcome(output: seq<Byte>, relay: Option<(Target, seq<Byte>)>, returned: seq<Byte>)

  function Written(o: Outcome): seq<Byte> {
    o.output + o.returned
  }

  function Refused(output: seq<Byte>): Outcome {
    Outcome(output, None, [])
  }

  function Sent(msg: seq<Byte>, budget: nat): seq<Byte> {
    if |msg| <= budget then msg else msg[..budget]
  }

  function Chosen(config: Config, methods: seq<Byte>): Byte {
    if Wanted(config) in methods then Wanted(config) else NO_ACCEPTABLE
  }

  function Handshake(config: Config, s: seq<Byte>, budget: nat): Phase {
    if |s| < 2 || s[0] != VERSION || |s| < 2 + (s[1] as nat) then Ended([])
    else
      var n: nat := s[1];
      var chosen := Chosen(config, s[2..2 + n]);
      var answer: seq<Byte> := [VERSION, chosen];
      if budget < 2 || chosen == NO_ACCEPTABLE then Ended(Sent(answer, budget))
      else Going(answer, s[2 + n..], budget - 2)
  }

  /** A length byte and that many bytes; and what follows them. */
  function Counted(s: seq<Byte>): Option<(seq<Byte>, seq<Byte>)> {
    if |s| < 1 || |s| < 1 + (s[0] as nat) then None
    else
      var n: nat := s[0];
      Some((s[1..1 + n], s[1 + n..]))
  }

  function Authenticate(config: Config, s: seq<Byte>, budget: nat): Phase {
    if |s| < 1 || s[0] != AUTH_VERSION then Ended([])
    else
      match Counted(s[1..])
      case None => Ended([])
      case Some((username, s1)) =>
        match Counted(s1)
        case None => Ended([])
        case Some((password, rest)) =>
          var matches := username == config.username && password == config.password;
          var answer: seq<Byte> := [AUTH_VERSION, if matches then 0 else 1];
          if budget < 2 || !matches then Ended(Sent(answer, budget)) else Going(answer, rest, budget - 2)
  }

  function Process(s: seq<Byte>, dial: Dialler, budget: nat): Outcome {
    if |s| < 4 || s[0] != VERSION then Refused([])
    else
      var addrType := s[3];
      if s[1] != CONNECT then Refused(Sent(Reply(REPLY_COMMAND_NOT_SUPPORTED, addrType), budget))
      else if addrType !in {ATYP_IPV4, ATYP_DOMAIN, ATYP_IPV6} then
        Refused(Sent(Reply(REPLY_ADDRESS_NOT_SUPPORTED, addrType), budget))
      else
        ConnectTo(addrType, s[4..], dial, budget)
  }

  /** A CONNECT from its address on. */
  function ConnectTo(addrType: Byte, s: seq<Byte>, dial: Dialler, budget: nat): Outcome {
    var parsed := ParseAddress(addrType, s);
    if parsed.None? then Refused(Sent(Reply(REPLY_GENERAL_FAILURE, addrType), budget))
    else if dial(parsed.value.0).None? then Refused(Sent(Reply(REPLY_HOST_UNREACHABLE, addrType), budget))
    else
      var reply := Reply(REPLY_SUCCESS, addrType);
      if budget < |reply| then Refused(Sent(reply, budget))
      else Outcome(reply, parsed, Sent(dial(parsed.value.0).value, budget - |reply|))
  }

  function AfterHandshake(config: Config, s: seq<Byte>, dial: Dialler, budget: nat): Outcome {
    if NeedsAuth(config) then
      match Authenticate(config, s, budget)
      case Ended(output) => Refused(output)
      case Going(output, rest, left) =>
        var o := Process(rest, dial, left);
        o.(output := output + o.output)
    else Process(s, dial, budget)
  }

  function Session(config: Config, s: seq<Byte>, dial: Dialler, budget: nat): Outcome {
    match Handshake(config, s, budget)
    case Ended(output) => Refused(output)
    case Going(output, rest, left) =>
      var o := AfterHandshake(config, rest, dial, left);
      o.(output := output + o.output)
  }

  // ----- the same in terms of the messages of the standards -----

  predicate Presentable(config: Config) {
    |config.username| < 256 && |config.password| < 256
  }

  function AuthMessage(config: Config): seq<Byte>
    requires Presentable(config)
  {
    if NeedsAuth(config) then Credentials(config.username, config.password) else []
  }

  /** The stream is a greeting offering the method, the right credentials if any are due, a CONNECT, and `rest`. */
  ghost predicate Asks(config: Config, s: seq<Byte>, t: Target, rest: seq<Byte>)
    requires ValidTarget(t)
  {
    Presentable(config) && exists methods: seq<Byte>, reserved: Byte ::
      && |methods| < 256 && Wanted(config) in methods
      && s == Greeting(methods) + (AuthMessage(config) + (Request(reserved, t) + rest))
  }

  function Status(config: Config, status: Byte): seq<Byte> {
    if NeedsAuth(config) then [AUTH_VERSION, status] else []
  }

  function FullOutput(config: Config, choice: Byte, status: Byte, code: Byte, addrType: Byte): seq<Byte> {
    [VERSION, choice] + (Status(config, status) + Reply(code, addrType))
  }

  lemma HandshakeAccepts(config: Config, methods: seq<Byte>, rest: seq<Byte>, budget: nat)
    requires |methods| < 256 && Wanted(config) in methods && budget >= 2
    ensures Handshake(config, Greeting(methods) + rest, budget) == Going([VERSION, Wanted(config)], rest, budget - 2)
  {
    var s := Greeting(methods) + rest;
    assert s[2..2 + |methods|] == methods && s[2 + |methods|..] == rest;
  }

  lemma HandshakeRead(config: Config, s: seq<Byte>, budget: nat) returns (methods: seq<Byte>)
    requires Handshake(config, s, budget).Going?
    ensures |methods| < 256 && Wanted(config) in methods && budget >= 2
    ensures s == Greeting(methods) + Handshake(config, s, budget).rest
  {
    methods := s[2..2 + (s[1] as nat)];
  }

  lemma CountedRoundTrip(data: seq<Byte>, s: seq<Byte>, rest: seq<Byte>)
    requires |data| < 256
    ensures Counted(s) == Some((data, rest)) <==> s == [|data| as Byte] + data + rest
  {
    if s == [|data| as Byte] + data + rest {
      assert s[1..1 + |data|] == data && s[1 + |data|..] == rest;
    }
    if Counted(s) == Some((data, rest)) {
      assert s == [s[0]] + s[1..1 + (s[0] as nat)] + s[1 + (s[0] as nat)..];
    }
  }

  lemma AuthAccepts(config: Config, rest: seq<Byte>, budget: nat)
    requires Presentable(config) && budget >= 2
    ensures Authenticate(config, Credentials(config.username, config.password) + rest, budget) ==
            Going([AUTH_VERSION, 0], rest, budget - 2)
  {
    var u, p := config.username, config.password;
    var s := Credentials(u, p) + rest;
    var s1 := [|p| as Byte] + p + rest;
    assert s[1..] == [|u| as Byte] + u + s1;
    CountedRoundTrip(u, s[1..], s1);
    CountedRoundTrip(p, s1, rest);
  }

  lemma AuthRead(config: Config, s: seq<Byte>, budget: nat)
    requires Authenticate(config, s, budget).Going?
    ensures Presentable(config) && budget >= 2
    ensures s == Credentials(config.username, config.password) + Authenticate(config, s, budget).rest
  {
    var s1 := Counted(s[1..]).value.1;
    var rest := Counted(s1).value.1;
    CountedRoundTrip(config.username, s[1..], s1);
    CountedRoundTrip(config.password, s1, rest);
    assert s == [s[0]] + s[1..];
    CredentialsJoin(config.username, config.password, rest);
  }

  lemma CredentialsJoin(username: seq<Byte>, password: seq<Byte>, rest: seq<Byte>)
    requires |username| < 256 && |password| < 256
    ensures Credentials(username, password) + rest ==
            [AUTH_VERSION] + ([|username| as Byte] + username + ([|password| as Byte] + password + rest))
  {
  }

  lemma ProcessAccepts(reserved: Byte, dial: Dialler, budget: nat, t: Target, rest: seq<Byte>)
    requires ValidTarget(t) && dial(t).Some? && budget >= |Reply(REPLY_SUCCESS, AddressType(t.host))|
    ensures var reply := Reply(REPLY_SUCCESS, AddressType(t.host));
            Process(Request(reserved, t) + rest, dial, budget) ==
            Outcome(reply, Some((t, rest)), Sent(dial(t).value, budget - |reply|))
  {
    ProcessConnects(reserved, dial, budget, t, rest);
  }

  lemma ProcessUnreachable(reserved: Byte, dial: Dialler, budget: nat, t: Target, rest: seq<Byte>)
    requires ValidTarget(t) && dial(t).None? && budget >= |Reply(REPLY_HOST_UNREACHABLE, AddressType(t.host))|
    ensures Process(Request(reserved, t) + rest, dial, budget) ==
            Refused(Reply(REPLY_HOST_UNREACHABLE, AddressType(t.host)))
  {
    ProcessConnects(reserved, dial, budget, t, rest);
  }

  lemma ProcessConnects(reserved: Byte, dial: Dialler, budget: nat, t: Target, rest: seq<Byte>)
    requires ValidTarget(t)
    ensures var tail := Address(t) + PortBytes(t.port) + rest;
            && ParseAddress(AddressType(t.host), tail) == Some((t, rest))
            && Process(Request(reserved, t) + rest, dial, budget) == ConnectTo(AddressType(t.host), tail, dial, budget)
  {
    RequestSplit(Request(reserved, t) + rest, reserved, t, rest);
    AddressReadBack(Address(t) + PortBytes(t.port) + rest, t, rest);
  }

  lemma ConnectToRead(addrType: Byte, s: seq<Byte>, dial: Dialler, budget: nat, t: Target, rest: seq<Byte>)
    requires ConnectTo(addrType, s, dial, budget).relay == Some((t, rest))
    ensures ValidTarget(t) && addrType == AddressType(t.host) && s == Address(t) + PortBytes(t.port) + rest
    ensures dial(t).Some? && budget >= |Reply(REPLY_SUCCESS, addrType)|
  {
    AddressWasPrinted(addrType, s, t, rest);
  }

  lemma ProcessRead(s: seq<Byte>, dial: Dialler, budget: nat, t: Target, rest: seq<Byte>)
    requires ValidTarget(t) && Process(s, dial, budget).relay == Some((t, rest))
    ensures |s| >= 4 && s == Request(s[2], t) + rest
    ensures dial(t).Some? && budget >= |Reply(REPLY_SUCCESS, AddressType(t.host))|
  {
    ConnectToRead(s[3], s[4..], dial, budget, t, rest);
    RequestSplit(s, s[2], t, rest);
  }

  const OPEN := Config([], [])

  function Answered(code: Byte, t: Target): seq<Byte> {
    [VERSION, NO_AUTH] + Reply(code, AddressType(t.host))
  }

  /** A whole session of a server without credentials with a client that asks for `t`. */
  lemma OpenSession(t: Target, rest: seq<Byte>, dial: Dialler, budget: nat)
    requires ValidTarget(t) && budget >= OutputNeeded(OPEN, t)
    ensures var o := Session(OPEN, Greeting([NO_AUTH]) + (Request(0, t) + rest), dial, budget);
            if dial(t).Some? then
              o.output == Answered(REPLY_SUCCESS, t) && o.relay == Some((t, rest))
            else o == Refused(Answered(REPLY_HOST_UNREACHABLE, t))
  {
    HandshakeAccepts(OPEN, [NO_AUTH], Request(0, t) + rest, budget);
    if dial(t).Some? {
      ProcessAccepts(0, dial, budget - 2, t, rest);
    } else {
      ProcessUnreachable(0, dial, budget - 2, t, rest);
    }
  }

  /** How much the peer must take for the relay to start. */
  function OutputNeeded(config: Config, t: Target): nat {
    2 + (if NeedsAuth(config) then 2 else 0) + |Reply(REPLY_SUCCESS, AddressType(t.host))|
  }

  lemma AfterHandshakeRead(config: Config, s: seq<Byte>, dial: Dialler, budget: nat, t: Target, rest: seq<Byte>)
    returns (reserved: Byte)
    requires ValidTarget(t) && AfterHandshake(config, s, dial, budget).relay == Some((t, rest))
    requires NeedsAuth(config) || Presentable(config)
    ensures Presentable(config) && s == AuthMessage(config) + (Request(reserved, t) + rest)
    ensures dial(t).Some? && budget + 2 >= OutputNeeded(config, t)
  {
    if NeedsAuth(config) {
      AuthRead(config, s, budget);
      var auth := Authenticate(config, s, budget);
      assert auth.budget == budget - 2;
      ProcessRead(auth.rest, dial, auth.budget, t, rest);
      reserved := auth.rest[2];
    } else {
      ProcessRead(s, dial, budget, t, rest);
      reserved := s[2];
      assert [] + s == s;
    }
  }

  lemma RelayOnlyIfAsked(config: Config, s: seq<Byte>, dial: Dialler, budget: nat, t: Target, rest: seq<Byte>)
    requires ValidTarget(t) && Session(config, s, dial, budget).relay == Some((t, rest))
    ensures Asks(config, s, t, rest) && dial(t).Some? && budget >= OutputNeeded(config, t)
  {
    var methods := HandshakeRead(config, s, budget);
    var first := Handshake(config, s, budget);
    assert first.budget == budget - 2;
    var reserved := AfterHandshakeRead(config, first.rest, dial, first.budget, t, rest);
    assert s == Greeting(methods) + (AuthMessage(config) + (Request(reserved, t) + rest));
  }

  lemma RelayIfAsked(config: Config, s: seq<Byte>, dial: Dialler, budget: nat, t: Target, rest: seq<Byte>)
    requires ValidTarget(t) && Asks(config, s, t, rest) && dial(t).Some? && budget >= OutputNeeded(config, t)
    ensures Session(config, s, dial, budget).relay == Some((t, rest))
  {
    var methods: seq<Byte>, reserved: Byte :| |methods| < 256 && Wanted(config) in methods
      && s == Greeting(methods) + (AuthMessage(config) + (Request(reserved, t) + rest));
    var request := Request(reserved, t) + rest;
    HandshakeAccepts(config, methods, AuthMessage(config) + request, budget);
    if NeedsAuth(config) {
      AuthAccepts(config, request, budget - 2);
      ProcessAccepts(reserved, dial, budget - 4, t, rest);
    } else {
      assert AuthMessage(config) + request == request;
      ProcessAccepts(reserved, dial, budget - 2, t, rest);
    }
  }

  /**
   * The relay to a destination starts, with exactly the bytes `rest` left for it, if and only if the
   * stream asks for it, the dial succeeds and the peer takes the answers.
   */
  lemma RelayIff(config: Config, s: seq<Byte>, dial: Dialler, budget: nat, t: Target, rest: seq<Byte>)
    requires ValidTarget(t)
    ensures Session(config, s, dial, budget).relay == Some((t, rest)) <==>
            Asks(config, s, t, rest) && dial(t).Some? && budget >= OutputNeeded(config, t)
  {
    if Session(config, s, dial, budget).relay == Some((t, rest)) {
      RelayOnlyIfAsked(config, s, dial, budget, t, rest);
    }
    if Asks(config, s, t, rest) && dial(t).Some? && budget >= OutputNeeded(config, t) {
      RelayIfAsked(config, s, dial, budget, t, rest);
    }
  }

  /** Nothing comes back without a relay; with one, the destination's bytes as far as the budget reaches. */
  ghost predicate Returns(o: Outcome, dial: Dialler, budget: nat) {
    match o.relay
    case None => o.returned == []
    case Some((t, _)) =>
      dial(t).Some? && |o.output| <= budget && o.returned == Sent(dial(t).value, budget - |o.output|)
  }

  /** Behind the complete output the client receives precisely the destination's bytes, as far as it takes them. */
  lemma RelayReturns(config: Config, s: seq<Byte>, dial: Dialler, budget: nat)
    ensures Returns(Session(config, s, dial, budget), dial, budget)
  {
    var first := Handshake(config, s, budget);
    if first.Going? && NeedsAuth(config) {
      var auth := Authenticate(config, first.rest, first.budget);
      if auth.Going? {
        ProcessReturns(auth.rest, dial, auth.budget);
      }
    } else if first.Going? {
      ProcessReturns(first.rest, dial, first.budget);
    }
  }

  lemma ProcessReturns(s: seq<Byte>, dial: Dialler, budget: nat)
    ensures Returns(Process(s, dial, budget), dial, budget)
  {
  }

  lemma ProcessOutput(s: seq<Byte>, dial: Dialler, budget: nat) returns (code: Byte, addrType: Byte)
    ensures var o := Process(s, dial, budget);
            && |o.output| <= budget && o.output <= Reply(code, addrType)
            && (o.relay.Some? ==> o.output == Reply(code, addrType) && code == REPLY_SUCCESS)
  {
    if |s| < 4 || s[0] != VERSION {
      code, addrType := REPLY_GENERAL_FAILURE, ATYP_IPV4;
    } else {
      addrType := s[3];
      code :=
        if s[1] != CONNECT then REPLY_COMMAND_NOT_SUPPORTED
        else if addrType !in {ATYP_IPV4, ATYP_DOMAIN, ATYP_IPV6} then REPLY_ADDRESS_NOT_SUPPORTED
        else if ParseAddress(addrType, s[4..]).None? then REPLY_GENERAL_FAILURE
        else if dial(ParseAddress(addrType, s[4..]).value.0).None? then REPLY_HOST_UNREACHABLE
        else REPLY_SUCCESS;
    }
  }

  lemma PrefixJoin(a: seq<Byte>, b: seq<Byte>, c: seq<Byte>)
    ensures b <= c ==> a + b <= a + c
    ensures a <= b ==> a <= b + c
  {
  }

  lemma JoinOutcome(head: seq<Byte>, o: Outcome, reply: seq<Byte>)
    requires o.output <= reply && (o.relay.Some? ==> o.output == reply)
    ensures head + o.output <= head + reply && (o.relay.Some? ==> head + o.output == head + reply)
  {
  }

  lemma AuthOutput(config: Config, s: seq<Byte>, budget: nat) returns (status: Byte)
    requires NeedsAuth(config)
    ensures match Authenticate(config, s, budget)
            case Ended(output) => |output| <= budget && output <= Status(config, status)
            case Going(output, _, left) => status == 0 && output == Status(config, 0) && left + 2 == budget
  {
    status := match Authenticate(config, s, budget)
      case Ended(output) => if |output| < 2 then 1 else output[1]
      case Going(_, _, _) => 0;
  }

  ghost predicate Tail(config: Config, o: Outcome, budget: nat, status: Byte, code: Byte, addrType: Byte) {
    && |o.output| <= budget && o.output <= Status(config, status) + Reply(code, addrType)
    && (NeedsAuth(config) && |o.output| > 2 ==> status == 0)
    && (o.relay.Some? ==> o.output == Status(config, status) + Reply(code, addrType) && code == REPLY_SUCCESS)
  }

  lemma AfterAuthOutput(config: Config, rest: seq<Byte>, dial: Dialler, left: nat)
    returns (code: Byte, addrType: Byte)
    requires NeedsAuth(config)
    ensures var o := Process(rest, dial, left);
            Tail(config, o.(output := Status(config, 0) + o.output), left + 2, 0, code, addrType)
  {
    code, addrType := ProcessOutput(rest, dial, left);
    JoinOutcome(Status(config, 0), Process(rest, dial, left), Reply(code, addrType));
  }

  lemma AfterHandshakeOutput(config: Config, s: seq<Byte>, dial: Dialler, budget: nat)
    returns (status: Byte, code: Byte, addrType: Byte)
    ensures Tail(config, AfterHandshake(config, s, dial, budget), budget, status, code, addrType)
  {
    if NeedsAuth(config) {
      status := AuthOutput(config, s, budget);
      var auth := Authenticate(config, s, budget);
      if auth.Ended? {
        code, addrType := REPLY_SUCCESS, ATYP_IPV4;
        PrefixJoin(auth.output, Status(config, status), Reply(code, addrType));
      } else {
        code, addrType := AfterAuthOutput(config, auth.rest, dial, auth.budget);
      }
    } else {
      status := 0;
      code, addrType := ProcessOutput(s, dial, budget);
      assert [] + Reply(code, addrType) == Reply(code, addrType);
    }
  }

  /**
   * Whatever the client sends, the output is a prefix of a method choice, an authentication status if
   * credentials are configured, and one reply; a refusal at one stage is the last thing written; and
   * the relay starts only behind the complete output with a success reply.
   */
  lemma OutputGrammar(config: Config, s: seq<Byte>, dial: Dialler, budget: nat)
    ensures var o := Session(config, s, dial, budget);
            |o.output| <= budget && exists choice, status, code, addrType ::
              var full := FullOutput(config, choice, status, code, addrType);
              && o.output <= full
              && (|o.output| > 2 ==> choice == Wanted(config))
              && (NeedsAuth(config) && |o.output| > 4 ==> status == 0)
              && (o.relay.Some? ==> o.output == full && code == REPLY_SUCCESS)
  {
    var o := Session(config, s, dial, budget);
    var first := Handshake(config, s, budget);
    if first.Ended? {
      var chosen := if |first.output| < 2 then NO_ACCEPTABLE else first.output[1];
      PrefixJoin(first.output, [VERSION, chosen], Status(config, 0) + Reply(0, ATYP_IPV4));
      assert o.output <= FullOutput(config, chosen, 0, 0, ATYP_IPV4);
    } else {
      var status, code, addrType := AfterHandshakeOutput(config, first.rest, dial, first.budget);
      var full := FullOutput(config, Wanted(config), status, code, addrType);
      PrefixJoin(first.output, AfterHandshake(config, first.rest, dial, first.budget).output,
                 Status(config, status) + Reply(code, addrType));
      assert o.output <= full;
    }
  }

  // ----- the server -----

  /** The client's side of a TCP connection; a read fails at the end of what arrives before EOF or the deadline. */
  lemma Slices(s: seq<Byte>, from: nat, n: nat)
    requires from + n <= |s|
    ensures s[from..][..n] == s[from..from + n] && s[from..][n..] == s[from + n..]
  {
  }

  lemma PieceWritten(written: seq<Byte>, data: seq<Byte>, i: nat, end: nat)
    requires i <= end <= |data|
    ensures (written + data[..i]) + data[i..end] == written + data[..end]
  {
    assert data[..i] + data[i..end] == data[..end];
  }

  class Conn {
    var chunks: seq<seq<Byte>>
    var budget: nat
    var written: seq<Byte>
    var open: bool

    predicate Valid()
      reads this
    {
      forall i :: 0 <= i < |chunks| ==> chunks[i] != []
    }

    function Stream(): seq<Byte>
      reads this
    {
      Concat(chunks)
    }

    /** One Read: some bytes of what has arrived, at most `max`. */
    method Read(max: nat) returns (data: seq<Byte>, ok: bool)
      requires Valid() && max > 0
      modifies `chunks
      ensures Valid()
      ensures ok <==> old(Stream()) != []
      ensures ok ==> 0 < |data| <= max && old(Stream()) == data + Stream()
      ensures !ok ==> data == [] && Stream() == []
    {
      if chunks == [] {
        return [], false;
      }
      var first := chunks[0];
      if |first| <= max {
        data, chunks := first, chunks[1..];
      } else {
        data := first[..max];
        chunks := [first[max..]] + chunks[1..];
        assert chunks[1..] == old(chunks)[1..];
        assert first == data + first[max..];
      }
      ok := true;
    }

    /** io.ReadFull: however the stream was cut, the result depends on its bytes only. */
    method ReadFull(n: nat) returns (data: seq<Byte>, ok: bool)
      requires Valid()
      modifies `chunks
      ensures Valid()
      ensures ok <==> |old(Stream())| >= n
      ensures ok ==> data == old(Stream())[..n] && Stream() == old(Stream())[n..]
    {
      data := [];
      while |data| < n
        invariant Valid() && |data| <= n
        invariant old(Stream()) == data + Stream()
        decreases n - |data|
      {
        var piece, more := Read(n - |data|);
        if !more {
          return data, false;
        }
        data := data + piece;
      }
      ok := true;
    }

    method Write(msg: seq<Byte>) returns (ok: bool)
      modifies `written, `budget
      ensures ok <==> |msg| <= old(budget)
      ensures written == old(written) + Sent(msg, old(budget))
      ensures budget == if ok then old(budget) - |msg| else 0
    {
      ok := |msg| <= budget;
      if ok {
        written, budget := written + msg, budget - |msg|;
      } else {
        written, budget := written + msg[..budget], 0;
      }
    }

    /** io.Copy into the connection: piece by piece, until the peer takes no more. */
    method CopyInto(data: seq<Byte>)
      modifies `written, `budget
      ensures written == old(written) + Sent(data, old(budget))
    {
      var i := 0;
      while i < |data|
        invariant i <= |data| && i <= old(budget) && budget == old(budget) - i
        invariant written == old(written) + data[..i]
      {
        var next := if |data| - i <= 32768 then |data| else i + 32768;
        ghost var end := if next <= old(budget) then next else old(budget);
        PieceWritten(old(written), data, i, end);
        assert Sent(data[i..next], budget) == data[i..end];
        var ok := Write(data[i..next]);
        if !ok {
          return;
        }
        i := next;
      }
      assert data[..|data|] == data;
    }

    /** io.Copy from the connection: everything that is still to come, piece by piece. */
    method CopyAll() returns (data: seq<Byte>)
      requires Valid()
      modifies `chunks
      ensures Valid() && Stream() == [] && data == old(Stream())
    {
      data := [];
      while chunks != []
        invariant Valid() && old(Stream()) == data + Stream()
        decreases |Stream()|
      {
        var piece, more := Read(32768);
        data := data + piece;
      }
    }

    /** closeGracefully: absorb what is left, then close. */
    method CloseGracefully()
      requires Valid()
      modifies `chunks, `open
      ensures Valid() && Stream() == [] && !open
    {
      var rest := CopyAll();
      open := false;
    }
  }

  class Server {
    const config: Config

    constructor (config: Config)
      ensures this.config == config
    {
      this.config := config;
    }

    method DoHandshake(conn: Conn) returns (ok: bool)
      requires conn.Valid()
      modifies conn
      ensures conn.Valid() && conn.open == old(conn.open)
      ensures match Handshake(config, old(conn.Stream()), old(conn.budget))
              case Ended(output) => !ok && conn.written == old(conn.written) + output
              case Going(output, rest, left) =>
                ok && conn.written == old(conn.written) + output && conn.Stream() == rest && conn.budget == left
    {
      ghost var s := conn.Stream();
      assert conn.written == conn.written + [];
      var buf, got := conn.ReadFull(2);
      if !got {
        return false;
      }
      if buf[0] != VERSION {
        return false;
      }
      var methods, all := conn.ReadFull(buf[1]);
      if !all {
        return false;
      }
      ghost var n: nat := s[1];
      Slices(s, 2, n);
      var selected := SelectMethod(methods);
      var sent := conn.Write([VERSION, selected]);
      if !sent {
        return false;
      }
      ok := selected != NO_ACCEPTABLE;
    }

    method SelectMethod(methods: seq<Byte>) returns (selected: Byte)
      ensures selected == Chosen(config, methods)
    {
      selected := NO_ACCEPTABLE;
      for i := 0 to |methods|
        invariant selected == NO_ACCEPTABLE && Wanted(config) !in methods[..i]
      {
        if methods[i] == Wanted(config) {
          selected := Wanted(config);
          return;
        }
      }
    }

    method ReadCounted(conn: Conn) returns (data: seq<Byte>, ok: bool)
      requires conn.Valid()
      modifies conn`chunks
      ensures conn.Valid()
      ensures ok <==> Counted(old(conn.Stream())).Some?
      ensures ok ==> Counted(old(conn.Stream())) == Some((data, conn.Stream()))
    {
      var length, got := conn.ReadFull(1);
      if !got {
        return [], false;
      }
      ghost var s := old(conn.Stream());
      data, ok := conn.ReadFull(length[0]);
      ghost var n: nat := s[0];
      if ok {
        Slices(s, 1, n);
      }
    }

    method DoAuthenticate(conn: Conn) returns (ok: bool)
      requires conn.Valid()
      modifies conn
      ensures conn.Valid() && conn.open == old(conn.open)
      ensures match Authenticate(config, old(conn.Stream()), old(conn.budget))
              case Ended(output) => !ok && conn.written == old(conn.written) + output
              case Going(output, rest, left) =>
                ok && conn.written == old(conn.written) + output && conn.Stream() == rest && conn.budget == left
    {
      assert conn.written == conn.written + [];
      var version, got := conn.ReadFull(1);
      if !got || version[0] != AUTH_VERSION {
        return false;
      }
      var username, got1 := ReadCounted(conn);
      if !got1 {
        return false;
      }
      var password, got2 := ReadCounted(conn);
      if !got2 {
        return false;
      }
      var status := if username == config.username && password == config.password then 0 else 1;
      var sent := conn.Write([AUTH_VERSION, status]);
      if !sent {
        return false;
      }
      ok := status == 0;
    }

    method SendReply(conn: Conn, code: Byte, addrType: Byte) returns (ok: bool)
      modifies conn`written, conn`budget
      ensures ok <==> |Reply(code, addrType)| <= old(conn.budget)
      ensures ok ==> conn.budget == old(conn.budget) - |Reply(code, addrType)|
      ensures conn.written == old(conn.written) + Sent(Reply(code, addrType), old(conn.budget))
    {
      var boundType := addrType;
      if boundType != ATYP_IPV6 {
        boundType := ATYP_IPV4;
      }
      var resp: seq<Byte> := [VERSION, code, 0, boundType];
      if boundType == ATYP_IPV6 {
        resp := resp + Zeros(16);
      } else {
        resp := resp + Zeros(4);
      }
      resp := resp + [0, 0];
      ok := conn.Write(resp);
    }

    method ReadAddress(conn: Conn, addrType: Byte) returns (target: Option<Target>)
      requires conn.Valid()
      modifies conn`chunks
      ensures conn.Valid()
      ensures target.Some? <==> ParseAddress(addrType, old(conn.Stream())).Some?
      ensures target.Some? ==> ParseAddress(addrType, old(conn.Stream())) == Some((target.value, conn.Stream()))
    {
      ghost var s := conn.Stream();
      target := None;
      if addrType == ATYP_IPV4 || addrType == ATYP_IPV6 {
        var ip, got := conn.ReadFull(if addrType == ATYP_IPV4 then 4 else 16);
        if !got {
          return;
        }
        var port, got1 := conn.ReadFull(2);
        if !got1 {
          return;
        }
        target := Some(Target(if addrType == ATYP_IPV4 then Ipv4(ip) else Ipv6(ip), U16(port[0], port[1])));
      } else if addrType == ATYP_DOMAIN {
        var length, got := conn.ReadFull(1);
        if !got {
          return;
        }
        var name, got1 := conn.ReadFull(length[0]);
        if !got1 {
          return;
        }
        var port, got2 := conn.ReadFull(2);
        if !got2 {
          return;
        }
        ghost var n: nat := s[0];
        assert s[1..][..n] == s[1..n + 1] && s[1..][n..] == s[n + 1..] && s[n + 1..][2..] == s[n + 3..];
        target := Some(Target(Domain(name), U16(port[0], port[1])));
      }
    }

    method ProcessRequest(conn: Conn, dial: Dialler) returns (relayed: Option<(Target, seq<Byte>)>)
      requires conn.Valid()
      modifies conn
      ensures conn.Valid() && conn.open == old(conn.open)
      ensures var o := Process(old(conn.Stream()), dial, old(conn.budget));
              conn.written == old(conn.written) + Written(o) && relayed == o.relay
    {
      ghost var s := conn.Stream();
      relayed := None;
      var buf, got := conn.ReadFull(4);
      if !got {
        return;
      }
      var addrType := buf[3];
      if buf[0] != VERSION {
        return;
      }
      if buf[1] != CONNECT {
        var sent := SendReply(conn, REPLY_COMMAND_NOT_SUPPORTED, addrType);
        return;
      }
      if addrType !in {ATYP_IPV4, ATYP_DOMAIN, ATYP_IPV6} {
        var sent := SendReply(conn, REPLY_ADDRESS_NOT_SUPPORTED, addrType);
        return;
      }
      assert conn.Stream() == s[4..];
      relayed := ConnectClient(conn, addrType, dial);
    }

    /** The rest of processRequest, once the request is known to be a CONNECT that can be parsed. */
    method ConnectClient(conn: Conn, addrType: Byte, dial: Dialler) returns (relayed: Option<(Target, seq<Byte>)>)
      requires conn.Valid()
      modifies conn
      ensures conn.Valid() && conn.open == old(conn.open)
      ensures var o := ConnectTo(addrType, old(conn.Stream()), dial, old(conn.budget));
              conn.written == old(conn.written) + Written(o) && relayed == o.relay
    {
      relayed := None;
      var target := ReadAddress(conn, addrType);
      if target.None? {
        var sent := SendReply(conn, REPLY_GENERAL_FAILURE, addrType);
        return;
      }
      if dial(target.value).None? {
        var sent := SendReply(conn, REPLY_HOST_UNREACHABLE, addrType);
        return;
      }
      var sent := SendReply(conn, REPLY_SUCCESS, addrType);
      if !sent {
        return;
      }
      var payload := Relay(conn, dial(target.value).value);
      relayed := Some((target.value, payload));
    }

    /** relay. The two copies do not touch each other's direction, so their interleaving does not show. */
    method Relay(conn: Conn, answer: seq<Byte>) returns (payload: seq<Byte>)
      requires conn.Valid()
      modifies conn
      ensures conn.Valid() && conn.open == old(conn.open)
      ensures payload == old(conn.Stream()) && conn.Stream() == []
      ensures conn.written == old(conn.written) + Sent(answer, old(conn.budget))
    {
      payload := conn.CopyAll();
      conn.CopyInto(answer);
    }

    /** The whole connection is the session function of its bytes; at the end it is drained and closed. */
    method HandleConnection(conn: Conn, dial: Dialler) returns (relayed: Option<(Target, seq<Byte>)>)
      requires conn.Valid()
      modifies conn
      ensures !conn.open && conn.Stream() == []
      ensures var o := Session(config, old(conn.Stream()), dial, old(conn.budget));
              conn.written == old(conn.written) + Written(o) && relayed == o.relay
    {
      relayed := Converse(conn, dial);
      conn.CloseGracefully();
    }

    method Converse(conn: Conn, dial: Dialler) returns (relayed: Option<(Target, seq<Byte>)>)
      requires conn.Valid()
      modifies conn
      ensures conn.Valid()
      ensures var o := Session(config, old(conn.Stream()), dial, old(conn.budget));
              conn.written == old(conn.written) + Written(o) && relayed == o.relay
    {
      var agreed := DoHandshake(conn);
      if !agreed {
        return None;
      }
      relayed := ConverseFurther(conn, dial);
      assert forall a: seq<Byte>, b: seq<Byte>, c: seq<Byte> :: (a + b) + c == a + (b + c);
    }

    method ConverseFurther(conn: Conn, dial: Dialler) returns (relayed: Option<(Target, seq<Byte>)>)
      requires conn.Valid()
      modifies conn
      ensures conn.Valid()
      ensures var o := AfterHandshake(config, old(conn.Stream()), dial, old(conn.budget));
              conn.written == old(conn.written) + Written(o) && relayed == o.relay
    {
      if config.username != [] || config.password != [] {
        var admitted := DoAuthenticate(conn);
        if !admitted {
          return None;
        }
        relayed := ProcessRequest(conn, dial);
        assert forall a: seq<Byte>, b: seq<Byte>, c: seq<Byte> :: (a + b) + c == a + (b + c);
        return;
      }
      relayed := ProcessRequest(conn, dial);
    }
  }
}
