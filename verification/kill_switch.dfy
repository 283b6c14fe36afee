/** What the kill switch's rules mean to a packet. */
module KillSwitch {
  import opened Net
  import opened Firewall

  const PUBLIC_DNS: seq<Addr> := [Ip(8, 8, 8, 8), Ip(8, 8, 4, 4), Ip(1, 1, 1, 1), Ip(1, 0, 0, 1)]
  const ALLOW_LOOPBACK := Rule(OutLoopback, Accept)
  const ALLOW_ESTABLISHED := Rule(Established, Accept)
  const BLOCK := Rule(Any, Drop)

  function AllowTo(net: Prefix): Rule {
    Rule(To(net), Accept)
  }

  function AllowDns(proto: Proto, server: Addr): Rule {
    Rule(Dns(proto, server), Accept)
  }

  /** The exceptions whose append may fail without aborting the setup, in order. */
  function Exceptions(server: Option<Addr>, gateway: Addr): seq<Rule> {
    [ALLOW_ESTABLISHED]
    + (if server.Some? then [AllowTo(server.value)] else [])
    + [AllowDns(Udp, gateway)] + [AllowDns(Tcp, gateway)]
    + UdpDnsRules(PUBLIC_DNS)
  }

  /** DNS over UDP to each of the servers, in order. */
  function UdpDnsRules(servers: seq<Addr>): seq<Rule> {
    if servers == [] then []
    else UdpDnsRules(servers[..|servers| - 1]) + [AllowDns(Udp, servers[|servers| - 1])]
  }

  lemma {:induction false} UdpDnsRulesMembers(servers: seq<Addr>, r: Rule)
    ensures r in UdpDnsRules(servers) <==>
            r.target == Accept && r.when.Dns? && r.when.proto == Udp && r.when.server in servers
  {
    if servers != [] {
      var k := |servers| - 1;
      assert servers == servers[..k] + [servers[k]];
      UdpDnsRulesMembers(servers[..k], r);
    }
  }

  lemma ExceptionsMembers(server: Option<Addr>, gateway: Addr, r: Rule)
    ensures r in Exceptions(server, gateway) <==>
            || r == ALLOW_ESTABLISHED
            || (server.Some? && r == AllowTo(server.value))
            || r == AllowDns(Udp, gateway) || r == AllowDns(Tcp, gateway)
            || (r.target == Accept && r.when.Dns? && r.when.proto == Udp && r.when.server in PUBLIC_DNS)
  {
    UdpDnsRulesMembers(PUBLIC_DNS, r);
  }

  /** Which iptables commands of one call fail although nothing is wrong with them. */
  type Faults = Command -> bool

  /** The rules whose append to the chain works. */
  function Kept(rules: seq<Rule>, fails: Faults): (kept: seq<Rule>) {
    if rules == [] then []
    else
      var r := rules[|rules| - 1];
      Kept(rules[..|rules| - 1], fails) + if fails(AppendChain(r)) then [] else [r]
  }

  /** Whether the set-up reaches its end; only then does OUTPUT jump to the chain. */
  predicate SetupWorks(chain: Option<seq<Rule>>, fails: Faults) {
    && (chain.Some? || !fails(NewChain))
    && !fails(AppendChain(ALLOW_LOOPBACK)) && !fails(AppendChain(BLOCK)) && !fails(AppendOutput(JUMP))
  }

  lemma {:induction false} KeptMembers(rules: seq<Rule>, fails: Faults, r: Rule)
    ensures r in Kept(rules, fails) <==> r in rules && !fails(AppendChain(r))
  {
    if rules != [] {
      KeptMembers(rules[..|rules| - 1], fails, r);
      assert rules == rules[..|rules| - 1] + [rules[|rules| - 1]];
    }
  }

  /** The chain after trying to append each of the rules. */
  function Appended(start: seq<Rule>, rules: seq<Rule>, fails: Faults): seq<Rule> {
    if rules == [] then start
    else
      var r := rules[|rules| - 1];
      var chain := Appended(start, rules[..|rules| - 1], fails);
      if fails(AppendChain(r)) then chain else chain + [r]
  }

  predicate NoneFails(rules: seq<Rule>, fails: Faults) {
    if rules == [] then true
    else NoneFails(rules[..|rules| - 1], fails) && !fails(AppendChain(rules[|rules| - 1]))
  }

  lemma {:induction false} AppendedIsKept(start: seq<Rule>, rules: seq<Rule>, fails: Faults)
    ensures Appended(start, rules, fails) == start + Kept(rules, fails)
    ensures NoneFails(rules, fails) ==> Kept(rules, fails) == rules
  {
    if rules != [] {
      AppendedIsKept(start, rules[..|rules| - 1], fails);
    }
  }

  /** What is in the chain when the set-up starts filling it: a stale chain stays if it cannot be flushed. */
  function Leftover(chain: Option<seq<Rule>>, fails: Faults): seq<Rule> {
    if chain.Some? && fails(FlushChain) then chain.value else []
  }

  /** The chain that a set-up which reaches its end leaves. */
  function Installed(before: Option<seq<Rule>>, server: Option<Addr>, gateway: Addr, fails: Faults): seq<Rule> {
    Leftover(before, fails) + Sealed(Kept(Exceptions(server, gateway), fails))
  }

  /** The chain once the set-up has been tried, however far it got. */
  function Filled(before: Option<seq<Rule>>, server: Option<Addr>, gateway: Addr, fails: Faults): Option<seq<Rule>> {
    if before.None? && fails(NewChain) then None
    else if fails(AppendChain(ALLOW_LOOPBACK)) then Some(Leftover(before, fails))
    else if fails(AppendChain(BLOCK)) then
      Some(Leftover(before, fails) + [ALLOW_LOOPBACK] + Kept(Exceptions(server, gateway), fails))
    else Some(Installed(before, server, gateway, fails))
  }

  lemma KeptAreExceptions(server: Option<Addr>, gateway: Addr, fails: Faults)
    ensures forall r :: r in Kept(Exceptions(server, gateway), fails) ==> r in Exceptions(server, gateway)
  {
    forall r | r in Kept(Exceptions(server, gateway), fails)
      ensures r in Exceptions(server, gateway)
    {
      KeptMembers(Exceptions(server, gateway), fails, r);
    }
  }

  /** Accepting rules that do not match leave a packet undecided. */
  lemma UnsealedOpen(left: seq<Rule>, accepts: seq<Rule>, p: Packet)
    requires DecideChain(left, p) == None && AllAccept(accepts) && !SomeMatches(accepts, p)
    ensures DecideChain(left + accepts, p) == None
  {
    DecideChainAppend(left, accepts, p);
    assert accepts + [] == accepts;
    DecideAccepts(accepts, [], p);
  }

  /** Such a chain drops what it does not let through exactly if it got as far as its last rule. */
  lemma FilledDrops(before: Option<seq<Rule>>, server: Option<Addr>, gateway: Addr, fails: Faults, p: Packet)
    requires Filled(before, server, gateway, fails).Some?
    requires DecideChain(Leftover(before, fails), p) == None && !Whitelisted(server, gateway, p)
    ensures DecideChain(Filled(before, server, gateway, fails).value, p) ==
            if !fails(AppendChain(ALLOW_LOOPBACK)) && !fails(AppendChain(BLOCK)) then Some(Dropped) else None
  {
    var left, kept := Leftover(before, fails), Kept(Exceptions(server, gateway), fails);
    KeptAreExceptions(server, gateway, fails);
    SealedMeaning(kept, server, gateway, p);
    if fails(AppendChain(ALLOW_LOOPBACK)) {
    } else if fails(AppendChain(BLOCK)) {
      ExceptionsMeaning(server, gateway, p);
      var accepts := [ALLOW_LOOPBACK] + kept;
      assert forall r :: r in accepts <==> r == ALLOW_LOOPBACK || r in kept;
      UnsealedOpen(left, accepts, p);
      assert left + [ALLOW_LOOPBACK] + kept == left + accepts;
    } else {
      DecideChainAppend(left, Sealed(kept), p);
    }
  }

  /** OUTPUT once the clean-up has tried to take the jump off. */
  function Unhooked(output: seq<Rule>, fails: Faults): seq<Rule> {
    if fails(DeleteOutput(JUMP)) then output else RemoveFirst(output, JUMP)
  }

  /** The traffic the kill switch is documented to let through. */
  predicate Whitelisted(server: Option<Addr>, gateway: Addr, p: Packet) {
    || p.loopback
    || p.established
    || (server.Some? && p.dst == server.value)
    || (p.dport == 53 && p.proto in {Udp, Tcp} && p.dst == gateway)
    || (p.dport == 53 && p.proto == Udp && p.dst in PUBLIC_DNS)
  }

  /** Name resolution gets through at Google's and Cloudflare's public servers, over UDP only. */
  lemma PublicResolvers(gateway: Addr, p: Packet)
    requires !p.loopback && !p.established && p.dst != gateway
    ensures Whitelisted(None, gateway, p) <==>
            && p.dport == 53 && p.proto == Udp
            && (p.dst == Ip(8, 8, 8, 8) || p.dst == Ip(8, 8, 4, 4)
                || p.dst == Ip(1, 1, 1, 1) || p.dst == Ip(1, 0, 0, 1))
  {
  }

  function FullChain(server: Option<Addr>, gateway: Addr): seq<Rule> {
    Sealed(Exceptions(server, gateway))
  }

  function Sealed(exceptions: seq<Rule>): seq<Rule> {
    [ALLOW_LOOPBACK] + exceptions + [BLOCK]
  }

  lemma ExceptionsMeaning(server: Option<Addr>, gateway: Addr, p: Packet)
    ensures AllAccept(Exceptions(server, gateway))
    ensures Whitelisted(server, gateway, p) <==> p.loopback || SomeMatches(Exceptions(server, gateway), p)
  {
    var rules := Exceptions(server, gateway);
    forall r: Rule
      ensures r in rules ==> r.target == Accept && (Matches(r.when, p) ==> Whitelisted(server, gateway, p))
    {
      ExceptionsMembers(server, gateway, r);
    }
    var witnesses := [ALLOW_ESTABLISHED, AllowDns(Udp, gateway), AllowDns(Tcp, gateway), AllowDns(Udp, p.dst)]
                     + if server.Some? then [AllowTo(server.value)] else [];
    forall r | r in witnesses
      ensures Matches(r.when, p) && r in rules ==> SomeMatches(rules, p)
      ensures r in rules <==> r != AllowDns(Udp, p.dst) || p.dst in PUBLIC_DNS || p.dst == gateway
    {
      ExceptionsMembers(server, gateway, r);
    }
    assert witnesses[0] in witnesses && witnesses[1] in witnesses;
    assert witnesses[2] in witnesses && witnesses[3] in witnesses;
    assert server.Some? ==> witnesses[4] in witnesses;
  }

  /** Whichever exceptions made it into the chain, it decides every packet and lets no other through. */
  lemma SealedMeaning(kept: seq<Rule>, server: Option<Addr>, gateway: Addr, p: Packet)
    requires forall r :: r in kept ==> r in Exceptions(server, gateway)
    ensures DecideChain(Sealed(kept), p) in {Some(Accepted), Some(Dropped)}
    ensures DecideChain(Sealed(kept), p) == Some(Accepted) <==> p.loopback || SomeMatches(kept, p)
    ensures SomeMatches(kept, p) ==> Whitelisted(server, gateway, p)
    ensures (forall r :: r in Exceptions(server, gateway) ==> r in kept) ==>
              (p.loopback || SomeMatches(kept, p) <==> Whitelisted(server, gateway, p))
  {
    ExceptionsMeaning(server, gateway, p);
    var accepts := [ALLOW_LOOPBACK] + kept;
    assert forall r :: r in accepts <==> r == ALLOW_LOOPBACK || r in kept;
    DecideAccepts(accepts, [BLOCK], p);
    if p.loopback { assert ALLOW_LOOPBACK in accepts && Matches(ALLOW_LOOPBACK.when, p); }
    if r :| r in kept && Matches(r.when, p) { assert r in accepts; }
  }

  /**
   * The whole switch, whichever tolerated commands failed: what OUTPUT already decided stays decided;
   * what the rules of a stale chain decide that could not be flushed, they still decide; every other
   * packet is accepted exactly when it is loopback or matches an exception whose append worked, and
   * dropped otherwise. Only whitelisted traffic gets through them, and all of it when none failed.
   */
  lemma SwitchMeaning(output: seq<Rule>, before: Option<seq<Rule>>, server: Option<Addr>, gateway: Addr,
                      fails: Faults, p: Packet)
    requires NoJump(output)
    ensures var exceptions := Exceptions(server, gateway);
            var was := Decide(Tables(output, before), p);
            var stale := DecideChain(Leftover(before, fails), p);
            var now := Decide(Tables(output + [JUMP], Some(Installed(before, server, gateway, fails))), p);
            && (was.Some? ==> now == was)
            && (was.None? && stale.Some? ==> now == stale)
            && (was.None? && stale.None? ==> now in {Some(Accepted), Some(Dropped)})
            && (was.None? && stale.None? ==> (now == Some(Accepted) <==>
                  p.loopback || exists r :: r in exceptions && !fails(AppendChain(r)) && Matches(r.when, p)))
            && (was.None? && stale.None? && now == Some(Accepted) ==> Whitelisted(server, gateway, p))
            && (was.None? && stale.None? && (forall r :: r in exceptions ==> !fails(AppendChain(r))) ==>
                  (now == Some(Accepted) <==> Whitelisted(server, gateway, p)))
  {
    var kept := Kept(Exceptions(server, gateway), fails);
    forall r: Rule
      ensures r in kept <==> r in Exceptions(server, gateway) && !fails(AppendChain(r))
    {
      KeptMembers(Exceptions(server, gateway), fails, r);
    }
    SealedMeaning(kept, server, gateway, p);
    var chain := Leftover(before, fails) + Sealed(kept);
    DecideChainAppend(Leftover(before, fails), Sealed(kept), p);
    NoJumpNoChain(output, before, Some(chain), p);
    DecideAppend(output, [JUMP], Some(chain), p);
    assert DecideOutput([JUMP], Some(chain), p) == DecideChain(chain, p);
  }

  /**
   * Whether activating the switch blocks anything: a packet that nothing else decides and the whitelist
   * does not cover is dropped exactly if the set-up works. The flag goes up in either case.
   */
  lemma BlocksIff(output: seq<Rule>, before: Option<seq<Rule>>, after: Option<seq<Rule>>,
                  server: Option<Addr>, gateway: Addr, fails: Faults, p: Packet)
    requires NoJump(output) && DecideOutput(output, before, p) == None
    requires DecideChain(Leftover(before, fails), p) == None && !Whitelisted(server, gateway, p)
    requires SetupWorks(before, fails) ==> after == Some(Installed(before, server, gateway, fails))
    ensures var jump := if SetupWorks(before, fails) then [JUMP] else [];
            Decide(Tables(output + jump, after), p) == Some(Dropped) <==> SetupWorks(before, fails)
  {
    if SetupWorks(before, fails) {
      SwitchMeaning(output, before, server, gateway, fails, p);
    } else {
      assert output + [] == output;
      NoJumpNoChain(output, before, after, p);
    }
  }

  /**
   * The REJECT rule that Disconnect appends to reset stale connections: behind an installed kill
   * switch it is never reached, and without one it rejects exactly the TCP traffic to the server
   * that OUTPUT had left undecided.
   */
  lemma RejectIsShadowed(output: seq<Rule>, chain: Option<seq<Rule>>, host: Addr, port: Option<nat>, p: Packet)
    ensures var reject := Rule(TcpTo(host, port), Reject);
            var was, now := DecideOutput(output, chain, p), DecideOutput(output + [reject], chain, p);
            && (JUMP in output && chain.Some? && DecideChain(chain.value, p).Some? ==> now == was)
            && (was.Some? ==> now == was)
            && (was.None? ==> now == if Matches(reject.when, p) then Some(Rejected) else None)
  {
    var reject := Rule(TcpTo(host, port), Reject);
    DecideAppend(output, [reject], chain, p);
    if JUMP in output && chain.Some? && DecideChain(chain.value, p).Some? {
      JumpSeals(output, chain.value, p);
    }
  }

  /** Split-tunnel networks inserted at the head of the chain, in list order; failed ones are missing. */
  function HeadExceptions(nets: seq<Prefix>, fails: nat -> bool): (rules: seq<Rule>)
    ensures AllAccept(rules)
  {
    if nets == [] then []
    else
      var k := |nets| - 1;
      (if fails(k) then [] else [AllowTo(nets[k])]) + HeadExceptions(nets[..k], fails)
  }

  lemma HeadsJoin(a: seq<Rule>, b: seq<Rule>, c: seq<Rule>)
    requires AllAccept(a) && AllAccept(b)
    ensures AllAccept(a + b) && a + (b + c) == (a + b) + c
  {
  }

  lemma HeadOneMore(nets: seq<Prefix>, k: nat, fails: nat -> bool, chain: seq<Rule>)
    requires k < |nets|
    ensures HeadExceptions(nets[..k + 1], fails) + chain ==
            if fails(k) then HeadExceptions(nets[..k], fails) + chain
            else [AllowTo(nets[k])] + (HeadExceptions(nets[..k], fails) + chain)
  {
    assert nets[..k + 1][..k] == nets[..k];
  }

  lemma {:induction false} HeadExceptionsMatch(nets: seq<Prefix>, fails: nat -> bool, p: Packet)
    ensures SomeMatches(HeadExceptions(nets, fails), p) <==>
            exists i :: 0 <= i < |nets| && !fails(i) && Contains(nets[i], p.dst)
  {
    if nets != [] {
      var k := |nets| - 1;
      var rest := HeadExceptions(nets[..k], fails);
      HeadExceptionsMatch(nets[..k], fails, p);
      var all := HeadExceptions(nets, fails);
      assert forall r :: r in all <==> (r == AllowTo(nets[k]) && !fails(k)) || r in rest;
      if !fails(k) && Contains(nets[k], p.dst) {
        assert AllowTo(nets[k]) in all;
      }
      if i :| 0 <= i < |nets| && !fails(i) && Contains(nets[i], p.dst) {
        assert i < k ==> nets[..k][i] == nets[i];
      }
    }
  }

  /** The chain with the inserted networks accepts what it accepted before and those networks, no more. */
  lemma HeadExceptionsMeaning(nets: seq<Prefix>, fails: nat -> bool, chain: seq<Rule>, p: Packet)
    ensures DecideChain(HeadExceptions(nets, fails) + chain, p) == Some(Accepted) <==>
            || DecideChain(chain, p) == Some(Accepted)
            || exists i :: 0 <= i < |nets| && !fails(i) && Contains(nets[i], p.dst)
  {
    HeadExceptionsMatch(nets, fails, p);
    DecideAccepts(HeadExceptions(nets, fails), chain, p);
  }
}
