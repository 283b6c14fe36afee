/** Every answer of the SOCKS5 server to every stream, in the numbers of RFC 1928 and RFC 1929. */
module Socks5Answers {
  import opened Net
  import opened Socks5Wire
  import opened Socks5Server

  /** The method that must be offered: 2 with credentials, 0 without. */
  function Due(config: Config): Byte {
    if config.username != [] || config.password != [] then 2 else 0
  }

  lemma HandshakeEnds(config: Config, s: seq<Byte>, budget: nat)
    requires budget >= 2
    ensures |s| < 2 || s[0] != 5 || |s| < 2 + (s[1] as nat) ==> Handshake(config, s, budget) == Ended([])
    ensures |s| >= 2 && s[0] == 5 && |s| >= 2 + (s[1] as nat) && Due(config) !in s[2..2 + (s[1] as nat)] ==>
              Handshake(config, s, budget) == Ended([5, 255])
  {
  }

  lemma SessionEnds(config: Config, s: seq<Byte>, output: seq<Byte>, dial: Dialler, budget: nat)
    requires Handshake(config, s, budget) == Ended(output)
    ensures Session(config, s, dial, budget) == Refused(output)
  {
  }

  /** A greeting that is cut short or of another version gets no answer; one without the method gets 5, 255. */
  lemma GreetingAnswers(config: Config, s: seq<Byte>, dial: Dialler, budget: nat)
    requires budget >= 2
    ensures |s| < 2 || s[0] != 5 || |s| < 2 + (s[1] as nat) ==> Session(config, s, dial, budget) == Refused([])
    ensures |s| >= 2 && s[0] == 5 && |s| >= 2 + (s[1] as nat) && Due(config) !in s[2..2 + (s[1] as nat)] ==>
              Session(config, s, dial, budget) == Refused([5, 255])
  {
    HandshakeEnds(config, s, budget);
    if Handshake(config, s, budget) == Ended([]) {
      SessionEnds(config, s, [], dial, budget);
    } else if Handshake(config, s, budget) == Ended([5, 255]) {
      SessionEnds(config, s, [5, 255], dial, budget);
    }
  }

  /** A greeting as its bytes. */
  function Hello(methods: seq<Byte>): seq<Byte>
    requires |methods| < 256
  {
    [5, |methods| as Byte] + methods
  }

  function Behind(output: seq<Byte>, o: Outcome): Outcome {
    o.(output := output + o.output)
  }

  lemma HelloAccepted(config: Config, methods: seq<Byte>, due: Byte, rest: seq<Byte>, budget: nat)
    requires |methods| < 256 && due == Due(config) && due in methods && budget >= 2
    ensures Handshake(config, Hello(methods) + rest, budget) == Going([5, due], rest, budget - 2)
  {
    assert Hello(methods) == Greeting(methods);
    HandshakeAccepts(config, methods, rest, budget);
  }

  lemma AuthenticateIs(config: Config, u: seq<Byte>, p: seq<Byte>, rest: seq<Byte>, budget: nat)
    requires |u| < 256 && |p| < 256 && budget >= 2
    ensures Authenticate(config, Credentials(u, p) + rest, budget) ==
            if u == config.username && p == config.password then Going([1, 0], rest, budget - 2) else Ended([1, 1])
  {
    var s := Credentials(u, p) + rest;
    var s1 := [|p| as Byte] + p + rest;
    assert s[1..] == [|u| as Byte] + u + s1;
    CountedRoundTrip(u, s[1..], s1);
    CountedRoundTrip(p, s1, rest);
  }

  // ----- sessions phase by phase -----

  lemma EndsInAuthentication(config: Config, s: seq<Byte>, s1: seq<Byte>, output: seq<Byte>, dial: Dialler, budget: nat)
    requires NeedsAuth(config) && budget >= 2
    requires Handshake(config, s, budget) == Going([5, 2], s1, budget - 2)
    requires Authenticate(config, s1, budget - 2) == Ended(output)
    ensures Session(config, s, dial, budget) == Refused([5, 2] + output)
  {
  }

  lemma Admitted(config: Config, s1: seq<Byte>, s2: seq<Byte>, dial: Dialler, budget: nat)
    requires NeedsAuth(config) && budget >= 2 && Authenticate(config, s1, budget) == Going([1, 0], s2, budget - 2)
    ensures AfterHandshake(config, s1, dial, budget) == Behind([1, 0], Process(s2, dial, budget - 2))
  {
  }

  lemma GoesOn(config: Config, s: seq<Byte>, s1: seq<Byte>, after: Outcome, dial: Dialler, budget: nat)
    requires budget >= 2 && Handshake(config, s, budget) == Going([5, 2], s1, budget - 2)
    requires AfterHandshake(config, s1, dial, budget - 2) == after
    ensures Session(config, s, dial, budget) == Behind([5, 2], after)
  {
  }

  lemma BehindTwice(o: Outcome)
    ensures Behind([5, 2], Behind([1, 0], o)) == Behind([5, 2, 1, 0], o)
    ensures [5, 2, 1, 0] <= Behind([5, 2, 1, 0], o).output
  {
    assert [5, 2] + ([1, 0] + o.output) == [5, 2, 1, 0] + o.output;
  }

  lemma PassesAuthentication(config: Config, s: seq<Byte>, s1: seq<Byte>, s2: seq<Byte>, dial: Dialler, budget: nat)
    requires NeedsAuth(config) && budget >= 4
    requires Handshake(config, s, budget) == Going([5, 2], s1, budget - 2)
    requires Authenticate(config, s1, budget - 2) == Going([1, 0], s2, budget - 4)
    ensures Session(config, s, dial, budget) == Behind([5, 2, 1, 0], Process(s2, dial, budget - 4))
    ensures [5, 2, 1, 0] <= Session(config, s, dial, budget).output
  {
    var o := Process(s2, dial, budget - 4);
    Admitted(config, s1, s2, dial, budget - 2);
    GoesOn(config, s, s1, Behind([1, 0], o), dial, budget);
    BehindTwice(o);
  }

  lemma NeedsNoAuthentication(config: Config, s: seq<Byte>, s1: seq<Byte>, dial: Dialler, budget: nat)
    requires !NeedsAuth(config) && budget >= 2
    requires Handshake(config, s, budget) == Going([5, 0], s1, budget - 2)
    ensures Session(config, s, dial, budget) == Behind([5, 0], Process(s1, dial, budget - 2))
  {
  }

  lemma CredentialsRefused(config: Config, methods: seq<Byte>, u: seq<Byte>, p: seq<Byte>, rest: seq<Byte>,
                           dial: Dialler, budget: nat)
    requires config.username != [] || config.password != []
    requires |methods| < 256 && 2 in methods && |u| < 256 && |p| < 256 && budget >= 4
    requires u != config.username || p != config.password
    ensures Session(config, Hello(methods) + (Credentials(u, p) + rest), dial, budget) == Refused([5, 2] + [1, 1])
  {
    var s1 := Credentials(u, p) + rest;
    HelloAccepted(config, methods, 2, s1, budget);
    AuthenticateIs(config, u, p, rest, budget - 2);
    EndsInAuthentication(config, Hello(methods) + s1, s1, [1, 1], dial, budget);
  }

  lemma CredentialsAccepted(config: Config, methods: seq<Byte>, rest: seq<Byte>, dial: Dialler, budget: nat)
    requires config.username != [] || config.password != []
    requires Presentable(config) && |methods| < 256 && 2 in methods && budget >= 4
    ensures var s := Hello(methods) + (Credentials(config.username, config.password) + rest);
            && Session(config, s, dial, budget) == Behind([5, 2, 1, 0], Process(rest, dial, budget - 4))
            && [5, 2, 1, 0] <= Session(config, s, dial, budget).output
  {
    var s1 := Credentials(config.username, config.password) + rest;
    HelloAccepted(config, methods, 2, s1, budget);
    AuthenticateIs(config, config.username, config.password, rest, budget - 2);
    PassesAuthentication(config, Hello(methods) + s1, s1, rest, dial, budget);
  }

  /**
   * Where credentials are due: the status is 0 exactly for the configured ones, and otherwise the whole
   * output is the method choice and the status 1, and nothing is relayed.
   */
  lemma CredentialsDecide(config: Config, methods: seq<Byte>, u: seq<Byte>, p: seq<Byte>, rest: seq<Byte>,
                          dial: Dialler, budget: nat)
    requires config.username != [] || config.password != []
    requires |methods| < 256 && 2 in methods && |u| < 256 && |p| < 256 && budget >= 4
    ensures var o := Session(config, Hello(methods) + (Credentials(u, p) + rest), dial, budget);
            if u == config.username && p == config.password then [5, 2, 1, 0] <= o.output
            else o == Refused([5, 2] + [1, 1])
  {
    if u == config.username && p == config.password {
      CredentialsAccepted(config, methods, rest, dial, budget);
    } else {
      CredentialsRefused(config, methods, u, p, rest, dial, budget);
    }
  }

  /** Whether the bytes begin with a credentials message. */
  ghost predicate HoldsCredentials(s: seq<Byte>) {
    exists u: seq<Byte>, p: seq<Byte>, rest: seq<Byte> :: |u| < 256 && |p| < 256 && s == Credentials(u, p) + rest
  }

  lemma CredentialsRead(config: Config, s: seq<Byte>, budget: nat)
    ensures HoldsCredentials(s) || Authenticate(config, s, budget) == Ended([])
  {
    if |s| >= 1 && s[0] == 1 && Counted(s[1..]).Some? && Counted(Counted(s[1..]).value.1).Some? {
      var (u, s1) := Counted(s[1..]).value;
      var (p, rest) := Counted(s1).value;
      CountedRoundTrip(u, s[1..], s1);
      CountedRoundTrip(p, s1, rest);
      CredentialsJoin(u, p, rest);
      assert s == [s[0]] + s[1..];
    }
  }

  /** Bytes that are no credentials message at all get no status. */
  lemma NoCredentialsNoStatus(config: Config, methods: seq<Byte>, rest: seq<Byte>, dial: Dialler, budget: nat)
    requires config.username != [] || config.password != []
    requires |methods| < 256 && 2 in methods && budget >= 4 && !HoldsCredentials(rest)
    ensures Session(config, Hello(methods) + rest, dial, budget) == Refused([5, 2])
  {
    HelloAccepted(config, methods, 2, rest, budget);
    CredentialsRead(config, rest, budget - 2);
    EndsInAuthentication(config, Hello(methods) + rest, rest, [], dial, budget);
    assert [5, 2] + [] == [5, 2];
  }

  lemma AdmittedFreely(config: Config, methods: seq<Byte>, req: seq<Byte>, dial: Dialler, budget: nat)
    requires config.username == [] && config.password == [] && |methods| < 256 && 0 in methods && budget >= 2
    ensures Session(config, Hello(methods) + req, dial, budget) == Behind([5, 0], Process(req, dial, budget - 2))
  {
    HelloAccepted(config, methods, 0, req, budget);
    NeedsNoAuthentication(config, Hello(methods) + req, req, dial, budget);
  }

  /** Whether the bytes behind a request's header begin with an address and a port. */
  ghost predicate HoldsTarget(addrType: Byte, s: seq<Byte>) {
    exists t: Target, rest: seq<Byte> ::
      ValidTarget(t) && AddressType(t.host) == addrType && s == Address(t) + PortBytes(t.port) + rest
  }

  lemma TargetParses(addrType: Byte, s: seq<Byte>)
    ensures ParseAddress(addrType, s).Some? <==> HoldsTarget(addrType, s)
  {
    if ParseAddress(addrType, s).Some? {
      var (t, rest) := ParseAddress(addrType, s).value;
      AddressWasPrinted(addrType, s, t, rest);
    }
    if t: Target, rest: seq<Byte> :|
      ValidTarget(t) && AddressType(t.host) == addrType && s == Address(t) + PortBytes(t.port) + rest {
      AddressReadBack(s, t, rest);
    }
  }

  /**
   * The reply to a request: none to one that is cut short or of another version; 7 to any command but
   * CONNECT; 8 to an address type other than 1, 3 and 4; 1 to an address that is cut short; 4 when the
   * destination cannot be dialled; and 0 otherwise, to the only requests that are relayed.
   */
  ghost predicate Replies(req: seq<Byte>, o: Outcome) {
    if |req| < 4 || req[0] != 5 then o == Refused([])
    else if req[1] != 1 then o == Refused(Reply(7, req[3]))
    else if req[3] !in {1, 3, 4} then o == Refused(Reply(8, req[3]))
    else if !HoldsTarget(req[3], req[4..]) then o == Refused(Reply(1, req[3]))
    else if o.relay.None? then o == Refused(Reply(4, req[3]))
    else o.output == Reply(0, req[3])
  }

  lemma ProcessReplies(req: seq<Byte>, dial: Dialler, budget: nat)
    requires budget >= 22
    ensures Replies(req, Process(req, dial, budget))
  {
    if |req| >= 4 {
      TargetParses(req[3], req[4..]);
    }
  }

  /** Every answer to an admitted client is its preamble and that reply. */
  ghost predicate AnswersRequest(preamble: seq<Byte>, req: seq<Byte>, o: Outcome) {
    exists replied :: Replies(req, replied) && o == Behind(preamble, replied)
  }

  lemma RequestAnswers(config: Config, methods: seq<Byte>, req: seq<Byte>, dial: Dialler, budget: nat)
    requires config.username == [] && config.password == [] && |methods| < 256 && 0 in methods && budget >= 26
    ensures AnswersRequest([5, 0], req, Session(config, Hello(methods) + req, dial, budget))
  {
    AdmittedFreely(config, methods, req, dial, budget);
    ProcessReplies(req, dial, budget - 2);
  }

  lemma RequestAnswersWithCredentials(config: Config, methods: seq<Byte>, req: seq<Byte>, dial: Dialler, budget: nat)
    requires config.username != [] || config.password != []
    requires Presentable(config) && |methods| < 256 && 2 in methods && budget >= 26
    ensures var s := Hello(methods) + (Credentials(config.username, config.password) + req);
            AnswersRequest([5, 2, 1, 0], req, Session(config, s, dial, budget))
  {
    CredentialsAccepted(config, methods, req, dial, budget);
    ProcessReplies(req, dial, budget - 4);
  }
}
