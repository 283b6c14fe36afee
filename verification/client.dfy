/**
 * The VPN client: Connect and Disconnect as effect sequences over the kernel's route table, iptables
 * and the Xray instance. Every single effect is judged as it happens, so that claims about "every
 * intermediate state" are claims about one flag that nothing but an unsafe state lowers.
 */
module VpnClient {
  import opened Net
  import opened Routing
  import opened Firewall
  import opened KillSwitch
  import opened SplitTunnelRouter
  import opened SplitTunnel

  datatype Snapshot = Snapshot(
    routes: Table, xray: Option<Addr>, connected: bool, wasConnected: bool, blocking: bool)

  /** What the outside world answers during Disconnect. */
  datatype DisconnectEnv = DisconnectEnv(setup: Faults, rejectFails: bool)

  /** What it answers during Connect; `resolved` is None when the link or its host name is unusable. */
  datatype ConnectEnv = ConnectEnv(
    resolved: Option<Addr>, port: Option<nat>, started: bool, exceptionFails: bool, tunUp: bool,
    routesFail: bool, proxyReady: bool, dnsFails: nat -> bool, portRouteFails: nat -> bool,
    cleanup: Faults, teardown: DisconnectEnv)

  datatype Call = DoConnect(cEnv: ConnectEnv) | DoDisconnect(dEnv: DisconnectEnv) | TimerFires(which: nat, fails: bool)

  /** While Xray runs, its own traffic to its server does not enter the tunnel. */
  predicate NoLoop(s: Snapshot) {
    s.xray.Some? ==> Lookup(s.routes, s.xray.value) != Some(Tun)
  }

  /** Once it has been up, an enabled switch is active whenever the VPN is down. */
  predicate Covered(killSwitch: bool, s: Snapshot) {
    killSwitch && s.wasConnected && !s.connected ==> s.blocking
  }

  predicate Safe(killSwitch: bool, s: Snapshot) {
    NoLoop(s) && Covered(killSwitch, s)
  }

  /** Every outside condition of a successful Connect. */
  predicate Favourable(env: ConnectEnv) {
    env.resolved.Some? && env.started && !env.exceptionFails && env.tunUp && !env.routesFail && env.proxyReady
  }

  /** The exception for the server and then the TUN routes meet no prefix that is already there. */
  predicate RoutesFree(base: Table, server: Addr, tunRoutes: seq<Prefix>) {
    server !in base && Addable(base[server := Gateway], tunRoutes)
  }

  /** Once Xray has started, a route of the machine's own to that very server is replaced. */
  function BaseAfter(base: Table, env: ConnectEnv): Table {
    if env.resolved.Some? && env.started then Remove(base, [env.resolved.value], Gateway) else base
  }

  /** The machine's own routes after a run: what each Connect that starts Xray has replaced is gone. */
  function BaseAfterCalls(base: Table, calls: seq<Call>): Table {
    if calls == [] then base
    else
      var before := BaseAfterCalls(base, calls[..|calls| - 1]);
      match calls[|calls| - 1]
      case DoConnect(env) => BaseAfter(before, env)
      case DoDisconnect(_) => before
      case TimerFires(_, _) => before
  }

  /** Some Connect of the run starts Xray for the server at that address. */
  predicate Started(calls: seq<Call>, p: Prefix) {
    exists i :: 0 <= i < |calls| && calls[i].DoConnect? && calls[i].cEnv.started && calls[i].cEnv.resolved == Some(p)
  }

  /** A run takes away exactly the gateway routes to servers it has started Xray for, and adds nothing. */
  lemma {:induction false} BaseAfterCallsEntry(base: Table, calls: seq<Call>, p: Prefix)
    ensures var after := BaseAfterCalls(base, calls);
            && (p in after <==> p in base && !(base[p] == Gateway && Started(calls, p)))
            && (p in after ==> after[p] == base[p])
  {
    if calls != [] {
      var front, last := calls[..|calls| - 1], calls[|calls| - 1];
      BaseAfterCallsEntry(base, front, p);
      assert Started(calls, p) <==>
        Started(front, p) || (last.DoConnect? && last.cEnv.started && last.cEnv.resolved == Some(p)) by {
        if i :| 0 <= i < |front| && front[i].DoConnect? && front[i].cEnv.started && front[i].cEnv.resolved == Some(p) {
          assert calls[i] == front[i];
        }
      }
    }
  }

  /** So a machine without host routes of its own keeps every route. */
  lemma BaseKept(base: Table, calls: seq<Call>)
    requires HostExceptions(base) == {}
    ensures BaseAfterCalls(base, calls) == base
  {
    var after := BaseAfterCalls(base, calls);
    forall p: Prefix
      ensures p in after <==> p in base
      ensures p in after ==> after[p] == base[p]
    {
      BaseAfterCallsEntry(base, calls, p);
      assert p in base && |p| == 32 && base[p] == Gateway ==> p in HostExceptions(base);
    }
    assert after.Keys == base.Keys;
  }

  /** No iptables command of the call fails for an outside reason. */
  ghost predicate NoFaults(fails: Faults) {
    forall c :: !fails(c)
  }

  ghost predicate DisconnectWorks(env: DisconnectEnv) {
    NoFaults(env.setup) && !env.rejectFails
  }

  ghost predicate CallWorks(call: Call) {
    match call
    case DoConnect(env) => NoFaults(env.cleanup) && DisconnectWorks(env.teardown)
    case DoDisconnect(env) => DisconnectWorks(env)
    case TimerFires(_, fails) => !fails
  }

  function Count(rules: seq<Rule>, r: Rule): nat {
    multiset(rules)[r]
  }

  /** The routes of a client that the attempt has connected. */
  function RoutesAfter(base: Table, env: ConnectEnv, tunRoutes: seq<Prefix>, dns: bool): Table
    requires env.resolved.Some?
  {
    ConnectedRoutes(base, env.resolved.value, tunRoutes, dns, env.dnsFails, env.portRouteFails)
  }

  /** How often OUTPUT jumps to the program's chain. */
  function Jumps(output: seq<Rule>): nat {
    Count(output, JUMP)
  }

  /** The rules awaiting removal are REJECTs, and OUTPUT jumps nowhere but to the program's chain. */
  predicate OwnRules(output: seq<Rule>, timers: seq<Rule>) {
    && (forall r :: r in timers ==> r.target == Reject && r.when.TcpTo?)
    && (forall r :: r in output && r.target == Jump ==> r == JUMP)
  }

  /** OUTPUT holds the machine's own rules, the pending REJECTs, and the jump exactly while the switch is active. */
  ghost predicate Balanced(output: seq<Rule>, foreign: seq<Rule>, timers: seq<Rule>, blocking: bool) {
    forall r :: Count(output, r) == Count(foreign, r) + Count(timers, r) + if blocking && r == JUMP then 1 else 0
  }

  lemma CountIn(rules: seq<Rule>, r: Rule)
    ensures Count(rules, r) > 0 <==> r in rules
  {
    assert r in multiset(rules) <==> r in rules;
  }

  lemma CountSum(a: seq<Rule>, b: seq<Rule>, r: Rule)
    ensures Count(a + b, r) == Count(a, r) + Count(b, r)
  {
  }

  lemma CountOne(one: Rule, r: Rule)
    ensures Count([one], r) == if r == one then 1 else 0
  {
  }

  lemma CountRemoved(rules: seq<Rule>, gone: Rule, r: Rule)
    requires gone in rules
    ensures Count(rules, r) == Count(RemoveFirst(rules, gone), r) + if r == gone then 1 else 0
  {
    RemoveFirstTakesOne(rules, gone);
  }

  lemma BalancedJumps(output: seq<Rule>, foreign: seq<Rule>, timers: seq<Rule>, blocking: bool)
    requires Balanced(output, foreign, timers, blocking) && OwnRules(output, timers) && NoJump(foreign)
    ensures Jumps(output) == if blocking then 1 else 0
  {
    CountIn(foreign, JUMP);
    CountIn(timers, JUMP);
  }

  lemma BalancedMembers(output: seq<Rule>, foreign: seq<Rule>, timers: seq<Rule>, blocking: bool, r: Rule)
    requires Balanced(output, foreign, timers, blocking)
    ensures r in output <==> r in foreign || r in timers || (blocking && r == JUMP)
  {
    CountIn(output, r);
    CountIn(foreign, r);
    CountIn(timers, r);
  }

  lemma JumpGoesOn(output: seq<Rule>, foreign: seq<Rule>, timers: seq<Rule>)
    requires OwnRules(output, timers)
    ensures OwnRules(output + [JUMP], timers)
    ensures Balanced(output, foreign, timers, false) ==> Balanced(output + [JUMP], foreign, timers, true)
  {
    forall r: Rule
      ensures Count(output + [JUMP], r) == Count(output, r) + if r == JUMP then 1 else 0
    {
      CountSum(output, [JUMP], r);
      CountOne(JUMP, r);
    }
  }

  lemma JumpComesOff(output: seq<Rule>, foreign: seq<Rule>, timers: seq<Rule>)
    requires OwnRules(output, timers)
    ensures OwnRules(RemoveFirst(output, JUMP), timers)
    ensures Balanced(output, foreign, timers, true) ==>
              JUMP in output && Balanced(RemoveFirst(output, JUMP), foreign, timers, false)
  {
    RemoveFirstAbsent(output, JUMP);
    if Balanced(output, foreign, timers, true) {
      BalancedMembers(output, foreign, timers, true, JUMP);
      forall r: Rule
        ensures Count(output, r) == Count(RemoveFirst(output, JUMP), r) + if r == JUMP then 1 else 0
      {
        CountRemoved(output, JUMP, r);
      }
    }
  }

  lemma RejectGoesOn(output: seq<Rule>, foreign: seq<Rule>, timers: seq<Rule>, blocking: bool, reject: Rule)
    requires OwnRules(output, timers) && reject.target == Reject && reject.when.TcpTo?
    ensures OwnRules(output + [reject], timers + [reject])
    ensures Balanced(output, foreign, timers, blocking) ==>
              Balanced(output + [reject], foreign, timers + [reject], blocking)
  {
    forall r: Rule
      ensures Count(output + [reject], r) == Count(output, r) + Count([reject], r)
      ensures Count(timers + [reject], r) == Count(timers, r) + Count([reject], r)
    {
      CountSum(output, [reject], r);
      CountSum(timers, [reject], r);
    }
  }

  /** The REJECT rule a Disconnect leaves behind for a while. */
  function Stale(host: Addr, port: Option<nat>, fails: bool): seq<Rule> {
    if fails then [] else [Rule(TcpTo(host, port), Reject)]
  }

  function Without(timers: seq<Rule>, which: nat): seq<Rule>
    requires which < |timers|
  {
    timers[..which] + timers[which + 1..]
  }

  lemma CountWithout(timers: seq<Rule>, which: nat, r: Rule)
    requires which < |timers|
    ensures Count(timers, r) == Count(Without(timers, which), r) + if r == timers[which] then 1 else 0
  {
    assert timers == timers[..which] + [timers[which]] + timers[which + 1..];
  }

  lemma RejectComesOff(output: seq<Rule>, foreign: seq<Rule>, timers: seq<Rule>, blocking: bool, which: nat)
    requires OwnRules(output, timers) && which < |timers|
    ensures var reject, rest := timers[which], Without(timers, which);
            && OwnRules(output, rest) && OwnRules(RemoveFirst(output, reject), rest)
            && (Balanced(output, foreign, timers, blocking) ==>
                  reject in output && Balanced(RemoveFirst(output, reject), foreign, rest, blocking))
            && (reject !in output ==> RemoveFirst(output, reject) == output)
  {
    var reject := timers[which];
    assert reject in timers;
    RemoveFirstAbsent(output, reject);
    if Balanced(output, foreign, timers, blocking) {
      BalancedMembers(output, foreign, timers, blocking, reject);
      forall r: Rule
        ensures Count(output, r) == Count(RemoveFirst(output, reject), r) + if r == reject then 1 else 0
        ensures Count(timers, r) == Count(Without(timers, which), r) + if r == reject then 1 else 0
      {
        CountRemoved(output, reject, r);
        CountWithout(timers, which, r);
      }
    }
  }

  lemma Regroup(a: seq<Rule>, b: seq<Rule>, c: seq<Rule>, d: seq<Rule>)
    ensures ((a + b) + c) + d == a + ((b + c) + d)
  {
  }

  class Client {
    const gateway: Addr
    const killSwitch: bool
    const dnsProtection: bool

    var routes: Table
    var tables: Tables
    var xray: Option<Addr>            // server of the running Xray instance
    var server: Option<Addr>          // xSrvIP: the last server that resolved
    var port: Option<nat>
    var connected: bool
    var blocking: bool                // killSwitchActive
    var routesToTun: seq<Prefix>
    var router: Router?
    var timers: seq<Rule>             // REJECT rules awaiting their delayed removal

    ghost const foreign: seq<Rule>    // the rules OUTPUT held before the client
    ghost var base: Table             // the routes that are not the client's
    ghost var wasConnected: bool
    ghost var clean: bool             // no iptables command has failed for an outside reason
    ghost var whitelisted: Option<Addr>  // the server the installed kill switch lets through
    ghost var heads: seq<Rule>        // split-tunnel exceptions inserted before its rules
    ghost var alwaysSafe: bool        // every state reached by a single effect so far was safe

    ghost function Now(): Snapshot
      reads `routes, `xray, `connected, `wasConnected, `blocking
    {
      Snapshot(routes, xray, connected, wasConnected, blocking)
    }

    /** Every state so far was safe, the current one included. */
    ghost predicate TraceSafe()
      reads `routes, `xray, `connected, `wasConnected, `blocking, `alwaysSafe
    {
      alwaysSafe && Safe(killSwitch, Now())
    }

    /** Xray runs, its server has its exception, and without the TUN routes that is all there is. */
    ghost predicate Linked()
      reads `base, `server, `xray, `routes
    {
      && server.Some? && xray == server && server.value !in base
      && DropTun(routes) == base[server.value := Gateway]
    }

    /** Routes and processes between calls. */
    ghost predicate RoutesAtRest()
      reads `base, `connected, `wasConnected, `server, `xray, `routes
    {
      && NoTun(base)
      && (connected ==> wasConnected && Linked())
      && (!connected ==> xray == None && routes == base)
    }

    /** What OUTPUT and the chain hold; certain only while commands do not fail. */
    ghost predicate SwitchSound()
      reads `tables, `clean, `blocking, `whitelisted, `heads, `timers
    {
      && (!killSwitch ==> !blocking)
      && OwnRules(tables.output, timers)
      && NoJump(foreign)
      && (clean ==> Balanced(tables.output, foreign, timers, blocking))
      && AllAccept(heads)
      && (clean && blocking ==> tables.chain == Some(heads + FullChain(whitelisted, gateway)))
    }

    ghost predicate AtRest()
      reads this
    {
      TraceSafe() && RoutesAtRest() && SwitchSound() && (connected ==> !blocking)
    }

    constructor (gateway: Addr, killSwitch: bool, dnsProtection: bool, routes: Table, tables: Tables)
      requires NoTun(routes) && NoJump(tables.output)
      ensures AtRest() && !connected && !blocking && clean && base == routes
      ensures !wasConnected && timers == [] && foreign == tables.output
      ensures this.routes == routes && this.tables == tables && routesToTun == ALL_TRAFFIC && router == null
      ensures this.gateway == gateway && this.killSwitch == killSwitch && this.dnsProtection == dnsProtection
    {
      this.gateway, this.killSwitch, this.dnsProtection := gateway, killSwitch, dnsProtection;
      this.routes, this.tables, this.foreign := routes, tables, tables.output;
      xray, server, port := None, None, None;
      connected, blocking := false, false;
      routesToTun, router, timers := ALL_TRAFFIC, null, [];
      base, wasConnected, clean, whitelisted, heads := routes, false, true, None, [];
      alwaysSafe := true;
    }

    // ----- single effects; the state after each one is judged -----

    ghost method Record()
      modifies `alwaysSafe
      ensures alwaysSafe == (old(alwaysSafe) && Safe(killSwitch, Now()))
    {
      alwaysSafe := alwaysSafe && Safe(killSwitch, Now());
    }

    /** One call to the route library: all of the prefixes or none. */
    method AddRoutes(ps: seq<Prefix>, hop: Hop, fails: bool) returns (ok: bool)
      modifies `routes, `alwaysSafe
      ensures ok <==> !fails && Addable(old(routes), ps)
      ensures routes == if ok then Extend(old(routes), ps, hop) else old(routes)
      ensures alwaysSafe == (old(alwaysSafe) && Safe(killSwitch, Now()))
    {
      ok := !fails && Addable(routes, ps);
      if ok {
        routes := Extend(routes, ps, hop);
      }
      Record();
    }

    method DeleteRoutes(ps: seq<Prefix>, hop: Hop, fails: bool) returns (ok: bool)
      modifies `routes, `alwaysSafe
      ensures ok <==> !fails && exists p :: p in ps && p in old(routes) && old(routes)[p] == hop
      ensures routes == if fails then old(routes) else Remove(old(routes), ps, hop)
      ensures alwaysSafe == (old(alwaysSafe) && Safe(killSwitch, Now()))
    {
      ok := !fails && exists p :: p in ps && p in routes && routes[p] == hop;
      if !fails {
        routes := Remove(routes, ps, hop);
      }
      Record();
    }

    method CloseTun()
      modifies `routes, `alwaysSafe
      ensures routes == DropTun(old(routes))
      ensures alwaysSafe == (old(alwaysSafe) && Safe(killSwitch, Now()))
    {
      routes := DropTun(routes);
      Record();
    }

    method SetXray(instance: Option<Addr>)
      modifies `xray, `alwaysSafe
      ensures xray == instance
      ensures alwaysSafe == (old(alwaysSafe) && Safe(killSwitch, Now()))
    {
      xray := instance;
      Record();
    }

    method SetConnected(value: bool)
      modifies `connected, `wasConnected, `alwaysSafe
      ensures connected == value && wasConnected == (old(wasConnected) || value)
      ensures alwaysSafe == (old(alwaysSafe) && Safe(killSwitch, Now()))
    {
      connected := value;
      wasConnected := wasConnected || value;
      Record();
    }

    method SetBlocking(value: bool)
      modifies `blocking, `alwaysSafe
      ensures blocking == value
      ensures alwaysSafe == (old(alwaysSafe) && Safe(killSwitch, Now()))
    {
      blocking := value;
      Record();
    }

    /** One iptables command. Safety does not depend on the firewall, so it is not judged. */
    method Exec(c: Command, fails: bool) returns (ok: bool)
      modifies `tables, `clean
      ensures ok <==> !fails && Firewall.Run(old(tables), c).Some?
      ensures tables == if ok then Firewall.Run(old(tables), c).value else old(tables)
      ensures clean == (old(clean) && !fails)
    {
      var after := Firewall.Run(tables, c);
      ok := !fails && after.Some?;
      if ok {
        tables := after.value;
      }
      clean := clean && !fails;
    }

    // ----- kill switch -----

    /**
     * setupKillSwitchRules. It succeeds exactly when the chain exists and its three critical commands
     * work; the chain then holds the exceptions whose append worked, behind what a failed flush has
     * left of an old one. On failure OUTPUT is untouched, so nothing is blocked.
     */
    method SetupKillSwitchRules(fails: Faults) returns (ok: bool)
      modifies `tables, `clean
      ensures ok <==> SetupWorks(old(tables).chain, fails)
      ensures tables.output == if ok then old(tables).output + [JUMP] else old(tables).output
      ensures ok ==> tables.chain == Some(Installed(old(tables).chain, server, gateway, fails))
      ensures tables.chain == Filled(old(tables).chain, server, gateway, fails)
      ensures clean ==>
                old(clean) && ok && Leftover(old(tables).chain, fails) == []
                && Kept(Exceptions(server, gateway), fails) == Exceptions(server, gateway)
      ensures NoFaults(fails) ==> clean == old(clean)
    {
      var ready := OpenChain(fails);
      if !ready {
        return false;
      }
      ghost var start := tables.chain.value;
      AllowExceptions(fails, start);
      AppendedIsKept(start, Exceptions(server, gateway), fails);
      var block := Exec(AppendChain(BLOCK), fails(AppendChain(BLOCK)));
      if !block {
        return false;
      }
      ok := Exec(AppendOutput(JUMP), fails(AppendOutput(JUMP)));
      Regroup(Leftover(old(tables).chain, fails), [ALLOW_LOOPBACK], Kept(Exceptions(server, gateway), fails), [BLOCK]);
    }

    /** Create and flush the chain, both tolerated, and let loopback through, which is not. */
    method OpenChain(fails: Faults) returns (ok: bool)
      modifies `tables, `clean
      ensures ok <==> (old(tables).chain.Some? || !fails(NewChain)) && !fails(AppendChain(ALLOW_LOOPBACK))
      ensures tables.output == old(tables).output
      ensures ok ==> tables.chain == Some(Leftover(old(tables).chain, fails) + [ALLOW_LOOPBACK])
      ensures !ok ==>
                tables.chain == if old(tables).chain.None? && fails(NewChain) then None
                                else Some(Leftover(old(tables).chain, fails))
      ensures clean ==> old(clean) && ok && !fails(FlushChain)
      ensures NoFaults(fails) ==> clean == old(clean)
    {
      var created := Exec(NewChain, fails(NewChain));
      var flushed := Exec(FlushChain, fails(FlushChain));
      ok := Exec(AppendChain(ALLOW_LOOPBACK), fails(AppendChain(ALLOW_LOOPBACK)));
    }

    /** The tolerated part of the set-up: established traffic, the server, DNS. */
    method AllowExceptions(fails: Faults, ghost start: seq<Rule>)
      requires tables.chain == Some(start)
      modifies `tables, `clean
      ensures tables == old(tables).(chain := Some(Appended(start, Exceptions(server, gateway), fails)))
      ensures clean ==> old(clean) && NoneFails(Exceptions(server, gateway), fails)
      ensures NoFaults(fails) ==> clean == old(clean)
    {
      ghost var want: seq<Rule> := [ALLOW_ESTABLISHED];
      TryException(ALLOW_ESTABLISHED, fails, start, []);
      assert [] + want == want;
      if server.Some? {
        TryException(AllowTo(server.value), fails, start, want);
      }
      want := want + if server.Some? then [AllowTo(server.value)] else [];
      TryException(AllowDns(Udp, gateway), fails, start, want);
      want := want + [AllowDns(Udp, gateway)];
      TryException(AllowDns(Tcp, gateway), fails, start, want);
      want := want + [AllowDns(Tcp, gateway)];
      AllowDnsServers(PUBLIC_DNS, fails, start, want);
    }

    method AllowDnsServers(servers: seq<Addr>, fails: Faults, ghost start: seq<Rule>, ghost tried: seq<Rule>)
      requires tables.chain == Some(Appended(start, tried, fails))
      modifies `tables, `clean
      ensures tables == old(tables).(chain := Some(Appended(start, tried + UdpDnsRules(servers), fails)))
      ensures clean ==> old(clean) && (NoneFails(tried, fails) ==> NoneFails(tried + UdpDnsRules(servers), fails))
      ensures NoFaults(fails) ==> clean == old(clean)
    {
      ghost var want := tried;
      for i := 0 to |servers|
        invariant want == tried + UdpDnsRules(servers[..i])
        invariant tables == old(tables).(chain := Some(Appended(start, want, fails)))
        invariant clean ==> old(clean) && (NoneFails(tried, fails) ==> NoneFails(want, fails))
        invariant NoFaults(fails) ==> clean == old(clean)
      {
        TryException(AllowDns(Udp, servers[i]), fails, start, want);
        want := want + [AllowDns(Udp, servers[i])];
        assert servers[..i + 1][..i] == servers[..i];
      }
      assert servers[..|servers|] == servers;
    }

    /** One tolerated append, after the attempts for `tried`. */
    method TryException(r: Rule, fails: Faults, ghost start: seq<Rule>, ghost tried: seq<Rule>)
      requires tables.chain == Some(Appended(start, tried, fails))
      modifies `tables, `clean
      ensures tables == old(tables).(chain := Some(Appended(start, tried + [r], fails)))
      ensures clean ==> old(clean) && (NoneFails(tried, fails) ==> NoneFails(tried + [r], fails))
      ensures NoFaults(fails) ==> clean == old(clean)
    {
      var added := Exec(AppendChain(r), fails(AppendChain(r)));
      assert (tried + [r])[..|tried|] == tried;
    }

    /** The flag goes up even when the set-up fails, although OUTPUT then blocks nothing. */
    method ActivateKillSwitch(fails: Faults)
      requires TraceSafe() && SwitchSound()
      modifies `tables, `clean, `alwaysSafe, `blocking, `whitelisted, `heads
      ensures TraceSafe() && SwitchSound()
      ensures blocking == killSwitch
      ensures clean ==> old(clean)
      ensures NoFaults(fails) ==> clean == old(clean)
      ensures old(blocking) || !killSwitch ==>
                tables == old(tables) && clean == old(clean) && whitelisted == old(whitelisted) && heads == old(heads)
      ensures !old(blocking) && killSwitch ==>
                && whitelisted == server && heads == []
                && tables.output == old(tables).output + (if SetupWorks(old(tables).chain, fails) then [JUMP] else [])
                && tables.chain == Filled(old(tables).chain, server, gateway, fails)
    {
      if !killSwitch {
        return;
      }
      if blocking {
        return;
      }
      InstallKillSwitch(fails);
    }

    method InstallKillSwitch(fails: Faults)
      requires TraceSafe() && SwitchSound() && killSwitch && !blocking
      modifies `tables, `clean, `alwaysSafe, `blocking, `whitelisted, `heads
      ensures TraceSafe() && SwitchSound() && blocking
      ensures clean ==> old(clean)
      ensures NoFaults(fails) ==> clean == old(clean)
      ensures whitelisted == server && heads == []
      ensures tables.output == old(tables).output + if SetupWorks(old(tables).chain, fails) then [JUMP] else []
      ensures tables.chain == Filled(old(tables).chain, server, gateway, fails)
    {
      JumpGoesOn(tables.output, foreign, timers);
      var ok := SetupKillSwitchRules(fails);
      assert !ok ==> tables.output == old(tables).output + [];
      whitelisted, heads := server, [];
      assert heads + FullChain(server, gateway) == FullChain(server, gateway);
      SetBlocking(true);
    }

    method CleanupKillSwitchRules(fails: Faults)
      modifies `tables, `clean
      ensures tables.output == Unhooked(old(tables).output, fails)
      ensures clean ==> old(clean) && !fails(DeleteOutput(JUMP))
      ensures !fails(DeleteOutput(JUMP)) && !fails(FlushChain) && !fails(DeleteChain) ==>
                NoJump(RemoveFirst(old(tables).output, JUMP)) ==> tables.chain == None
      ensures NoFaults(fails) ==> clean == old(clean)
    {
      RemoveFirstAbsent(tables.output, JUMP);
      var unhooked := Exec(DeleteOutput(JUMP), fails(DeleteOutput(JUMP)));
      var flushed := Exec(FlushChain, fails(FlushChain));
      var deleted := Exec(DeleteChain, fails(DeleteChain));
    }

    method DeactivateKillSwitch(fails: Faults)
      requires TraceSafe() && connected && SwitchSound()
      modifies `tables, `clean, `alwaysSafe, `blocking
      ensures TraceSafe() && SwitchSound()
      ensures !blocking
      ensures clean ==> old(clean)
      ensures NoFaults(fails) ==> clean == old(clean)
      ensures !old(blocking) ==> tables == old(tables)
      ensures old(blocking) ==> tables.output == Unhooked(old(tables).output, fails)
    {
      if !killSwitch {
        return;
      }
      if !blocking {
        return;
      }
      JumpComesOff(tables.output, foreign, timers);
      CleanupKillSwitchRules(fails);
      SetBlocking(false);
    }

    // ----- connection life cycle -----

    /** The running instance's own traffic is pinned to the gateway. */
    predicate Pinned()
      reads `xray, `routes
    {
      xray.Some? ==> xray.value in routes && routes[xray.value] == Gateway
    }

    lemma PinnedIsSafe()
      requires Pinned() || NoTun(routes)
      ensures NoLoop(Now())
    {
      if xray.Some? {
        if Pinned() {
          HostRouteWins(routes, xray.value);
        } else {
          NoTunLookup(routes, xray.value);
        }
      }
    }

    lemma LinkedIsPinned()
      requires Linked() && NoTun(base)
      ensures Pinned()
    {
      Unpinning(base, routes, server.value);
    }

    /** KillConnectionsToServer, as far as it touches iptables: a REJECT rule now, its removal later. */
    method RejectStale(host: Addr, fails: bool)
      requires SwitchSound()
      modifies `tables, `clean, `timers
      ensures SwitchSound()
      ensures tables == old(tables).(output := old(tables).output + Stale(host, port, fails))
      ensures timers == old(timers) + Stale(host, port, fails)
      ensures clean == (old(clean) && !fails)
    {
      var reject := Rule(TcpTo(host, port), Reject);
      RejectGoesOn(tables.output, foreign, timers, blocking, reject);
      assert Firewall.Run(tables, AppendOutput(reject)) == Some(tables.(output := tables.output + [reject]));
      assert tables.output + [] == tables.output && timers + [] == timers;
      var added := Exec(AppendOutput(reject), fails);
      if added {
        timers := timers + [reject];
      }
    }

    /** The delayed goroutine: change -A into -D and forget about it. */
    method FireTimer(which: nat, fails: bool)
      requires SwitchSound()
      modifies `tables, `clean, `timers
      ensures SwitchSound()
      ensures which < |old(timers)| ==>
                && timers == Without(old(timers), which)
                && tables.output ==
                     if fails then old(tables).output else RemoveFirst(old(tables).output, old(timers)[which])
      ensures which >= |old(timers)| ==> timers == old(timers) && tables == old(tables)
      ensures tables.chain == old(tables).chain
      ensures clean == (old(clean) && (which < |old(timers)| ==> !fails))
    {
      if which < |timers| {
        var r := timers[which];
        RejectComesOff(tables.output, foreign, timers, blocking, which);
        var removed := Exec(DeleteOutput(r), fails);
        timers := Without(timers, which);
      }
    }

    /**
     * Disconnect. The kill switch goes up first and stays up; nothing of the connection is left, and
     * the routes that are not the client's are untouched.
     */
    method Disconnect(env: DisconnectEnv)
      requires AtRest()
      modifies `tables, `clean, `alwaysSafe, `blocking, `whitelisted, `heads, `connected, `wasConnected,
               `xray, `routes, `timers
      ensures AtRest() && !connected && xray == None && routes == base
      ensures blocking == killSwitch && wasConnected == old(wasConnected)
      ensures !old(connected) ==> timers == old(timers)
      ensures old(connected) ==> timers == old(timers) + Stale(server.value, port, env.rejectFails)
      ensures clean ==> old(clean)
      ensures DisconnectWorks(env) ==> clean == old(clean)
      ensures !old(connected) && old(blocking) ==> tables == old(tables) && clean == old(clean)
      ensures if !old(blocking) && killSwitch then whitelisted == old(server) && heads == []
              else whitelisted == old(whitelisted) && heads == old(heads)
      ensures !old(blocking) ==>
                tables.output == old(tables).output
                + (if killSwitch && SetupWorks(old(tables).chain, env.setup) then [JUMP] else [])
                + if old(connected) then Stale(server.value, port, env.rejectFails) else []
    {
      ActivateKillSwitch(env.setup);
      if !connected {
        return;
      }
      TearDown(env.rejectFails);
    }

    method TearDown(rejectFails: bool)
      requires TraceSafe() && Linked() && NoTun(base) && wasConnected && SwitchSound() && blocking == killSwitch
      modifies `tables, `clean, `alwaysSafe, `connected, `wasConnected, `xray, `routes, `timers
      ensures TraceSafe() && SwitchSound() && !connected && wasConnected
      ensures xray == None && routes == base
      ensures timers == old(timers) + Stale(server.value, port, rejectFails)
      ensures tables.output == old(tables).output + Stale(server.value, port, rejectFails)
      ensures clean == (old(clean) && !rejectFails)
    {
      LinkedIsPinned();
      StopTraffic(rejectFails);
      RemoveRoutes();
    }

    method StopTraffic(rejectFails: bool)
      requires TraceSafe() && Pinned() && wasConnected && SwitchSound() && blocking == killSwitch && server.Some?
      modifies `tables, `clean, `alwaysSafe, `connected, `wasConnected, `xray, `timers
      ensures TraceSafe() && SwitchSound()
      ensures !connected && wasConnected && xray == None
      ensures timers == old(timers) + Stale(server.value, port, rejectFails)
      ensures tables.output == old(tables).output + Stale(server.value, port, rejectFails)
      ensures clean == (old(clean) && !rejectFails)
    {
      PinnedIsSafe();
      SetConnected(false);
      if server.Some? {
        RejectStale(server.value, rejectFails);
      }
      if xray.Some? {
        SetXray(None);
      }
    }

    method RemoveRoutes()
      requires TraceSafe() && xray == None && server.Some? && server.value !in base && NoTun(base)
      requires DropTun(routes) == base[server.value := Gateway]
      modifies `alwaysSafe, `routes
      ensures TraceSafe() && routes == base
    {
      Unpinning(base, routes, server.value);
      CloseTun();
      var unpinned := DeleteRoutes([server.value], Gateway, false);
      CleanupDnsRoutes();
    }

    /** The TUN device is gone by now, so these deletions find nothing. */
    method CleanupDnsRoutes()
      requires TraceSafe() && NoTun(routes) && xray == None
      modifies `alwaysSafe, `routes
      ensures TraceSafe() && routes == old(routes)
    {
      NothingOfTun(routes, DNS_SERVERS);
      NothingOfTun(routes, DNS_PORT_ROUTES);
      var dnsRoutes := DeleteRoutes(DNS_SERVERS, Tun, false);
      if dnsProtection {
        var portRoutes := DeleteRoutes(DNS_PORT_ROUTES, Tun, false);
        var standard := DeleteRoutes(DNS_SERVERS, Tun, false);
      }
    }

    /** One route at a time, going on after failures. */
    method AddEach(ps: seq<Prefix>, hop: Hop, fails: nat -> bool)
      requires TraceSafe() && Pinned()
      modifies `routes, `alwaysSafe
      ensures TraceSafe() && Pinned()
      ensures routes == FillSteps(old(routes), ps, hop, fails)
    {
      for i := 0 to |ps|
        invariant TraceSafe() && Pinned()
        invariant routes == FillSteps(old(routes), ps[..i], hop, fails)
      {
        assert ps[..i + 1][..i] == ps[..i];
        var added := AddRoutes([ps[i]], hop, fails(i));
        assert Pinned();
        PinnedIsSafe();
      }
      assert ps[..|ps|] == ps;
    }

    method SetupTunnel(up: bool, routesFail: bool) returns (ok: bool)
      requires TraceSafe() && Linked() && NoTun(base)
      modifies `routes, `alwaysSafe
      ensures TraceSafe() && Linked()
      ensures ok <==> up && !routesFail && Addable(old(routes), routesToTun)
      ensures routes == if ok then Extend(old(routes), routesToTun, Tun) else old(routes)
    {
      if !up {
        return false;
      }
      if Addable(routes, routesToTun) {
        TunRoutesComeOff(routes, routesToTun);
      }
      ok := AddRoutes(routesToTun, Tun, routesFail);
      Unpinning(base, routes, server.value);
      PinnedIsSafe();
    }

    method SetupDnsProtection(dnsFails: nat -> bool, portRouteFails: nat -> bool)
      requires TraceSafe() && Linked() && NoTun(base)
      modifies `routes, `alwaysSafe
      ensures TraceSafe() && Linked()
      ensures var served := FillSteps(old(routes), DNS_SERVERS, Tun, dnsFails);
              routes == FillSteps(served, DNS_PORT_ROUTES, Tun, portRouteFails)
    {
      Unpinning(base, routes, server.value);
      TunStepsComeOff(routes, DNS_SERVERS, dnsFails);
      AddEach(DNS_SERVERS, Tun, dnsFails);
      TunStepsComeOff(routes, DNS_PORT_ROUTES, portRouteFails);
      AddEach(DNS_PORT_ROUTES, Tun, portRouteFails);
    }

    /**
     * The exception for the server, replacing one that an earlier run may have left behind. A route to
     * the server over another interface is not matched by the Delete and makes the Add fail.
     */
    method PinServer(fails: bool) returns (ok: bool)
      requires TraceSafe() && server.Some? && xray == server && NoTun(base) && routes == base
      modifies `routes, `base, `alwaysSafe
      ensures TraceSafe()
      ensures base == Remove(old(base), [server.value], Gateway)
      ensures ok <==> !fails && !(server.value in old(base) && old(base)[server.value] != Gateway)
      ensures routes == if ok then base[server.value := Gateway] else base
      ensures ok ==> Linked()
    {
      var stale := DeleteRoutes([server.value], Gateway, false);
      base := routes;
      PinnedIsSafe();
      ok := AddRoutes([server.value], Gateway, fails);
      assert Addable(base, [server.value]) <==> server.value !in base;
      assert ok ==> routes == base[server.value := Gateway];
      PinnedIsSafe();
    }

    /** The failure exits after the exception is in place. */
    method Abandon(closeTun: bool)
      requires TraceSafe() && Linked() && NoTun(base) && (closeTun || NoTun(routes))
      modifies `routes, `xray, `alwaysSafe
      ensures TraceSafe() && xray == None && routes == base
    {
      Unpinning(base, routes, server.value);
      if closeTun {
        CloseTun();
        PinnedIsSafe();
      }
      var unpinned := DeleteRoutes([server.value], Gateway, false);
      PinnedIsSafe();
      SetXray(None);
    }

    /**
     * Connect. It succeeds exactly when every step does; then only the server's exception and the TUN
     * routes have been added and the kill switch is down. A failed attempt leaves no Xray instance and
     * no route behind. Either way the only foreign route that may be gone is one for the server itself.
     */
    method Connect(env: ConnectEnv) returns (ok: bool)
      requires AtRest()
      modifies `tables, `clean, `alwaysSafe, `blocking, `whitelisted, `heads, `connected, `wasConnected,
               `xray, `routes, `timers, `server, `port, `base
      ensures AtRest() && ok == connected
      ensures base == BaseAfter(old(base), env) && wasConnected == (old(wasConnected) || ok)
      ensures if env.resolved.Some? then server == env.resolved && port == env.port
              else server == old(server) && port == old(port)
      ensures clean ==> old(clean)
      ensures CallWorks(DoConnect(env)) ==> clean == old(clean)
      ensures ok <==>
                && env.resolved.Some? && env.started && !env.exceptionFails && env.tunUp && !env.routesFail
                && env.proxyReady && env.resolved.value !in base && Distinct(routesToTun)
                && forall p :: p in routesToTun ==> p !in base && p != env.resolved.value
      ensures ok <==> Favourable(env) && RoutesFree(base, env.resolved.value, routesToTun)
      ensures ok ==>
                && server == env.resolved && xray == server && !blocking
                && routes == RoutesAfter(base, env, routesToTun, dnsProtection)
      ensures !ok ==> xray == None && routes == base && blocking == if old(connected) then killSwitch else old(blocking)
      ensures !old(connected) ==> whitelisted == old(whitelisted) && heads == old(heads) && timers == old(timers)
      ensures !old(connected) && NoFaults(env.cleanup) ==> clean == old(clean)
      ensures !old(connected) && !ok ==> tables == old(tables) && clean == old(clean)
      ensures old(connected) && killSwitch ==> whitelisted == old(server) && heads == []
      ensures old(connected) ==>
                timers == old(timers) + Stale(old(server).value, old(port), env.teardown.rejectFails)
      ensures !old(connected) ==>
                tables.output ==
                  if ok then Unblocked(old(tables).output, old(blocking), env.cleanup) else old(tables).output
    {
      if connected {
        Disconnect(env.teardown);
      }
      ok := ConnectIdle(env);
    }

    method ConnectIdle(env: ConnectEnv) returns (ok: bool)
      requires AtRest() && !connected
      modifies `tables, `clean, `alwaysSafe, `blocking, `connected, `wasConnected, `xray, `routes, `server, `port, `base
      ensures AtRest() && ok == connected
      ensures base == BaseAfter(old(base), env) && wasConnected == (old(wasConnected) || ok)
      ensures if env.resolved.Some? then server == env.resolved && port == env.port
              else server == old(server) && port == old(port)
      ensures clean ==> old(clean)
      ensures NoFaults(env.cleanup) ==> clean == old(clean)
      ensures ok <==> Favourable(env) && RoutesFree(base, env.resolved.value, routesToTun)
      ensures ok ==>
                && server == env.resolved && xray == server && !blocking
                && routes == RoutesAfter(base, env, routesToTun, dnsProtection)
      ensures !ok ==> xray == None && routes == base && blocking == old(blocking)
      ensures !ok ==> tables == old(tables) && clean == old(clean)
      ensures ok ==> tables.output == Unblocked(old(tables).output, old(blocking), env.cleanup)
    {
      ok := Establish(env);
      if ok {
        Announce(env.cleanup);
      }
    }

    /** Up to the point where the tunnel works; the flags are not touched. */
    method Establish(env: ConnectEnv) returns (ok: bool)
      requires TraceSafe() && RoutesAtRest() && !connected
      modifies `alwaysSafe, `xray, `routes, `server, `port, `base
      ensures TraceSafe() && NoTun(base)
      ensures base == BaseAfter(old(base), env)
      ensures if env.resolved.Some? then server == env.resolved && port == env.port
              else server == old(server) && port == old(port)
      ensures ok ==>
                && Linked() && server == env.resolved
                && routes == RoutesAfter(base, env, routesToTun, dnsProtection)
      ensures !ok ==> xray == None && routes == base
      ensures ok <==> Favourable(env) && RoutesFree(base, env.resolved.value, routesToTun)
    {
      if env.resolved.None? {
        return false;
      }
      server, port := env.resolved, env.port;
      if !env.started {
        return false;
      }
      SetXray(server);
      PinnedIsSafe();
      var pinned := PinServer(env.exceptionFails);
      if !pinned {
        SetXray(None);
        return false;
      }
      var tunnelled := SetupTunnel(env.tunUp, env.routesFail);
      if !tunnelled {
        Abandon(false);
        return false;
      }
      if !env.proxyReady {
        Abandon(true);
        return false;
      }
      if dnsProtection {
        SetupDnsProtection(env.dnsFails, env.portRouteFails);
      }
      return true;
    }

    /** OUTPUT once the kill switch is down again. */
    function Unblocked(output: seq<Rule>, wasBlocking: bool, cleanup: Faults): seq<Rule> {
      if wasBlocking then Unhooked(output, cleanup) else output
    }

    /** isConnected goes up before the kill switch comes down. */
    method Announce(cleanup: Faults)
      requires TraceSafe() && Linked() && NoTun(base) && SwitchSound() && !connected
      modifies `tables, `clean, `alwaysSafe, `connected, `wasConnected, `blocking
      ensures AtRest() && connected && !blocking
      ensures wasConnected && (clean ==> old(clean)) && (NoFaults(cleanup) ==> clean == old(clean))
      ensures tables.output == Unblocked(old(tables).output, old(blocking), cleanup)
    {
      Unpinning(base, routes, server.value);
      PinnedIsSafe();
      SetConnected(true);
      DeactivateKillSwitch(cleanup);
    }

    method MakeCall(call: Call) returns (ok: bool)
      requires AtRest()
      modifies `tables, `clean, `alwaysSafe, `blocking, `whitelisted, `heads, `connected, `wasConnected,
               `xray, `routes, `timers, `server, `port, `base
      ensures AtRest() && wasConnected == (old(wasConnected) || ok)
      ensures base == BaseAfterCalls(old(base), [call])
      ensures clean ==> old(clean)
      ensures CallWorks(call) ==> clean == old(clean)
      ensures ok ==> call.DoConnect? && connected
    {
      assert [call][..0] == [];
      ok := false;
      match call {
        case DoConnect(env) => ok := Connect(env);
        case DoDisconnect(env) => Disconnect(env);
        case TimerFires(which, fails) => FireTimer(which, fails);
      }
    }

    /**
     * Any number of calls, one at a time, with any outcomes, and delayed clean-ups in between: every
     * intermediate state was safe, and between calls routes, Xray and kill switch are as they should be.
     * `succeeded` says whether one of the Connects did.
     */
    method RunCalls(calls: seq<Call>) returns (succeeded: bool)
      requires AtRest()
      modifies `tables, `clean, `alwaysSafe, `blocking, `whitelisted, `heads, `connected, `wasConnected,
               `xray, `routes, `timers, `server, `port, `base
      ensures AtRest()
      ensures wasConnected == (old(wasConnected) || succeeded)
      ensures killSwitch && (old(wasConnected) || succeeded) && !connected ==> blocking
      ensures base == BaseAfterCalls(old(base), calls)
      ensures clean ==> old(clean)
      ensures (forall i :: 0 <= i < |calls| ==> CallWorks(calls[i])) ==> clean == old(clean)
      ensures clean ==> Jumps(tables.output) == if blocking then 1 else 0
    {
      succeeded := false;
      for i := 0 to |calls|
        invariant AtRest()
        invariant wasConnected == (old(wasConnected) || succeeded)
        invariant base == BaseAfterCalls(old(base), calls[..i])
        invariant clean ==> old(clean)
        invariant (forall k :: 0 <= k < i ==> CallWorks(calls[k])) ==> clean == old(clean)
      {
        assert calls[..i + 1][..i] == calls[..i] && [calls[i]][..0] == [];
        var ok := MakeCall(calls[i]);
        succeeded := succeeded || ok;
      }
      assert calls[..|calls|] == calls;
      if clean {
        BalancedJumps(tables.output, foreign, timers, blocking);
      }
    }

    // ----- split tunnelling, run around Connect -----

    method SetupSplitTunneling(config: Config, parse: Parser, fails: nat -> bool) returns (ok: bool)
      requires AtRest()
      modifies `router, `routes, `base, `routesToTun, `alwaysSafe
      ensures AtRest()
      ensures !config.enabled ==> ok && router == old(router)
      ensures config.enabled ==> (ok <==> Usable(config, parse) && config.mode != Disabled)
      ensures config.enabled && ok ==>
                && router != null && router.Valid() && router.config == config && router.parse == parse
                && routes == (if config.mode == Exclude then FillSteps(old(routes), router.excludeNets, Gateway, fails)
                              else old(routes))
                && routesToTun == (if config.mode == Include then router.includeNets else old(routesToTun))
    {
      if !config.enabled {
        return true;
      }
      var r := NewRouter(config, parse);
      if r == null {
        return false;
      }
      router := r;
      match config.mode {
        case Exclude => ok := SetupExcludeMode(fails);
        case Include => ok := SetupIncludeMode();
        case Disabled => ok := false;
        case Unknown(_) => ok := false;
      }
    }

    method SetupExcludeMode(fails: nat -> bool) returns (ok: bool)
      requires AtRest() && router != null && router.Valid() && router.config.mode == Exclude
      modifies `routes, `base, `alwaysSafe
      ensures AtRest()
      ensures ok <==> router.excludeNets != []
      ensures routes == FillSteps(old(routes), router.excludeNets, Gateway, fails)
      ensures base == old(base) + Added(old(routes), routes)
    {
      var excluded := router.GetExcludedRoutes();
      if |excluded| == 0 {
        NothingAdded(base, routes);
        return false;
      }
      AddExcluded(excluded, fails);
      return true;
    }

    method AddExcluded(excluded: seq<Prefix>, fails: nat -> bool)
      requires TraceSafe() && RoutesAtRest()
      modifies `routes, `base, `alwaysSafe
      ensures TraceSafe() && RoutesAtRest()
      ensures routes == FillSteps(old(routes), excluded, Gateway, fails)
      ensures base == old(base) + Added(old(routes), routes)
    {
      if connected {
        Unpinning(base, routes, server.value);
        RestGrows(base, routes, server.value, excluded, fails);
      }
      GatewayStepsStay(routes, excluded, fails);
      AddEach(excluded, Gateway, fails);
      base := base + Added(old(routes), routes);
    }

    method SetupIncludeMode() returns (ok: bool)
      requires router != null && router.Valid() && router.config.mode == Include
      modifies `routesToTun
      ensures ok <==> router.includeNets != []
      ensures routesToTun == if ok then router.includeNets else old(routesToTun)
    {
      var included := router.GetIncludedRoutes();
      if |included| == 0 {
        return false;
      }
      routesToTun := included;
      return true;
    }

    /** The clean-up is in exclude mode and deletes the route of the server the client is connected to. */
    predicate CleanupUnpins(fails: nat -> bool)
      reads `connected, `server, `router, router
      requires connected ==> server.Some?
    {
      connected && router != null && router.config.mode == Exclude && Attempted(router.excludeNets, fails, server.value)
    }

    /**
     * cleanupSplitTunneling. The client stays sound exactly when the clean-up does not take the
     * exception of the server it is connected to away. Include mode's RoutesToTUN stay.
     */
    method CleanupSplitTunneling(fails: nat -> bool)
      requires AtRest() && (router != null ==> router.Valid())
      modifies `routes, `base, `alwaysSafe
      ensures routes == if router != null && router.config.mode == Exclude
                        then RemoveSteps(old(routes), router.excludeNets, Gateway, fails) else old(routes)
      ensures AtRest() <==> !CleanupUnpins(fails)
    {
      if router == null {
        return;
      }
      if router.config.mode == Exclude {
        var excluded := router.GetExcludedRoutes();
        DeleteEach(excluded, fails);
        if CleanupUnpins(fails) {
          assert server.value !in DropTun(routes);
        }
      }
    }

    method DeleteEach(excluded: seq<Prefix>, fails: nat -> bool)
      requires TraceSafe() && RoutesAtRest()
      modifies `routes, `base, `alwaysSafe
      ensures routes == RemoveSteps(old(routes), excluded, Gateway, fails)
      ensures !(connected && Attempted(excluded, fails, server.value)) ==> TraceSafe() && RoutesAtRest()
      ensures connected && Attempted(excluded, fails, server.value) ==> server.value !in routes
    {
      ghost var spared := !(connected && Attempted(excluded, fails, server.value));
      if connected {
        Unpinning(base, routes, server.value);
        RemoveStepsEntry(routes, excluded, Gateway, fails, server.value);
      }
      for i := 0 to |excluded|
        invariant base == old(base) && routes == RemoveSteps(old(routes), excluded[..i], Gateway, fails)
        invariant spared ==> TraceSafe()
      {
        assert excluded[..i + 1][..i] == excluded[..i];
        var deleted := DeleteRoutes([excluded[i]], Gateway, fails(i));
        if spared {
          StillPinned(old(routes), excluded, i + 1, fails);
          PinnedIsSafe();
        }
      }
      assert excluded[..|excluded|] == excluded;
      if connected && spared {
        RestShrinks(base, old(routes), server.value, excluded, fails);
      }
      RemovedSteps(base, excluded, fails);
      base := RemoveSteps(base, excluded, Gateway, fails);
    }

    lemma StillPinned(before: Table, excluded: seq<Prefix>, n: nat, fails: nat -> bool)
      requires n <= |excluded| && routes == RemoveSteps(before, excluded[..n], Gateway, fails)
      requires xray.Some? ==> xray.value in before && before[xray.value] == Gateway
      requires xray.Some? ==> !Attempted(excluded, fails, xray.value)
      ensures Pinned()
    {
      if xray.Some? {
        RemoveStepsEntry(before, excluded[..n], Gateway, fails, xray.value);
        if Attempted(excluded[..n], fails, xray.value) {
          AttemptedPrefix(excluded, n, fails, xray.value);
        }
      }
    }

    /** integrateSplitTunnelWithKillSwitch: each excluded network is inserted at the head of the chain. */
    method IntegrateSplitTunnel(fails: nat -> bool)
      requires SwitchSound() && (router != null ==> router.Valid())
      modifies `tables, `clean, `heads
      ensures SwitchSound()
      ensures (forall i :: !fails(i)) ==> clean == old(clean)
      ensures router == null || router.config.mode != Exclude || old(tables).chain.None? ==> tables == old(tables)
      ensures router != null && router.config.mode == Exclude && old(tables).chain.Some? ==>
                tables == WithHeads(old(tables), HeadExceptions(router.excludeNets, fails))
    {
      if router == null {
        return;
      }
      if router.config.mode != Exclude {
        return;
      }
      InsertHeads(router, fails);
      if tables.chain.Some? {
        HeadsJoin(HeadExceptions(router.excludeNets, fails), heads, FullChain(whitelisted, gateway));
        heads := HeadExceptions(router.excludeNets, fails) + heads;
      }
    }

    /** The tables with rules inserted at the head of the chain. */
    static function WithHeads(t: Tables, rules: seq<Rule>): Tables
      requires t.chain.Some?
    {
      t.(chain := Some(rules + t.chain.value))
    }

    method InsertHeads(router: Router, fails: nat -> bool)
      requires router.Valid()
      modifies `tables, `clean
      ensures clean ==> old(clean)
      ensures (forall i :: !fails(i)) ==> clean == old(clean)
      ensures old(tables).chain.None? ==> tables == old(tables)
      ensures old(tables).chain.Some? ==>
                tables == WithHeads(old(tables), HeadExceptions(router.excludeNets, fails))
    {
      ghost var nets := router.excludeNets;
      ghost var before := if tables.chain.Some? then tables.chain.value else [];
      assert HeadExceptions(nets[..0], fails) + before == before;
      for i := 0 to |router.config.excludeCidrs|
        invariant clean ==> old(clean)
        invariant (forall i :: !fails(i)) ==> clean == old(clean)
        invariant old(tables).chain.None? ==> tables == old(tables)
        invariant old(tables).chain.Some? ==>
                    tables == WithHeads(old(tables), HeadExceptions(nets[..i], fails))
      {
        var cidr := router.parse(router.config.excludeCidrs[i]).value;
        HeadOneMore(nets, i, fails, before);
        var added := Exec(InsertChain(AllowTo(cidr)), fails(i));
      }
      assert nets[..|nets|] == nets;
    }
  }

  /** Between calls, the host exceptions are those of the machine and, while connected, the server's. */
  lemma ExceptionsAtRest(c: Client)
    requires c.RoutesAtRest()
    ensures HostExceptions(c.routes) == HostExceptions(c.base) + if c.connected then {c.server.value} else {}
  {
    var kept := DropTun(c.routes);
    assert HostExceptions(c.routes) == HostExceptions(kept);
  }

  /**
   * The life of a client from its start, on a machine without TUN routes and jumps: besides the safety
   * of every intermediate state, the routes at rest are the machine's own and, while connected, the
   * server's exception; a switch that was needed is up; and if no command failed for an outside reason,
   * OUTPUT holds the machine's rules, the pending REJECTs and the jump exactly while the switch is up.
   */
  method RunFromStart(gateway: Addr, killSwitch: bool, dnsProtection: bool, routes: Table, tables: Tables,
                      calls: seq<Call>)
    returns (c: Client, succeeded: bool)
    requires NoTun(routes) && NoJump(tables.output)
    ensures fresh(c) && c.AtRest()
    ensures !c.connected ==> c.xray == None && c.routes == BaseAfterCalls(routes, calls)
    ensures HostExceptions(c.routes) ==
            HostExceptions(BaseAfterCalls(routes, calls)) + if c.connected then {c.server.value} else {}
    ensures HostExceptions(routes) == {} ==> BaseAfterCalls(routes, calls) == routes
    ensures if c.connected then succeeded && !c.blocking else killSwitch && succeeded ==> c.blocking
    ensures (forall i :: 0 <= i < |calls| ==> CallWorks(calls[i])) ==>
              c.clean && Balanced(c.tables.output, tables.output, c.timers, c.blocking)
  {
    c := new Client(gateway, killSwitch, dnsProtection, routes, tables);
    succeeded := c.RunCalls(calls);
    ExceptionsAtRest(c);
    if HostExceptions(routes) == {} {
      BaseKept(routes, calls);
    }
  }

  /**
   * Which commands an activation cannot do without. A packet that neither OUTPUT nor a chain that could
   * not be flushed decides, and that is not whitelisted, is dropped afterwards exactly if the chain is
   * there or can be made, its loopback and DROP rules can be appended, and OUTPUT jumps to it. All
   * other failures are tolerated, and the flag goes up in any case.
   */
  method ActivationBlocksIff(c: Client, fails: Faults, p: Packet)
    requires c.TraceSafe() && c.SwitchSound() && c.killSwitch && !c.blocking
    requires Decide(c.tables, p) == None && !Whitelisted(c.server, c.gateway, p)
    requires c.tables.chain.Some? && fails(FlushChain) ==> DecideChain(c.tables.chain.value, p) == None
    modifies c
    ensures c.blocking
    ensures Decide(c.tables, p) ==
              if && (old(c.tables).chain.Some? || !fails(NewChain))
                 && !fails(AppendChain(Rule(OutLoopback, Accept)))
                 && !fails(AppendChain(Rule(Any, Drop)))
                 && (Rule(Any, Jump) in old(c.tables).output || !fails(AppendOutput(Rule(Any, Jump))))
              then Some(Dropped) else None
  {
    ghost var output, before := c.tables.output, c.tables.chain;
    c.ActivateKillSwitch(fails);
    if c.tables.chain.Some? {
      FilledDrops(before, c.server, c.gateway, fails, p);
    }
    OnlyJumpDecides(output, before, c.tables.chain, p);
    DecideAppend(output, [JUMP], c.tables.chain, p);
    assert c.tables.output == output + [] ==> c.tables.output == output;
    assert c.tables.chain.Some? ==>
      DecideOutput([JUMP], c.tables.chain, p) == DecideChain(c.tables.chain.value, p);
  }

  /** One failing command, the jump itself, and an active switch that leaves OUTPUT as it was. */
  method ActiveButOpen(c: Client)
    requires c.TraceSafe() && c.SwitchSound() && c.killSwitch && !c.blocking
    modifies c
    ensures c.blocking && c.tables.output == old(c.tables).output
  {
    c.ActivateKillSwitch(command => command == AppendOutput(JUMP));
  }

  lemma SplitAtJump(output: seq<Rule>) returns (before: seq<Rule>, after: seq<Rule>)
    requires Jumps(output) == 1
    ensures output == before + [JUMP] + after && JUMP !in before + after
  {
    CountIn(output, JUMP);
    var i :| 0 <= i < |output| && output[i] == JUMP;
    before, after := output[..i], output[i + 1..];
    assert Without(output, i) == before + after;
    CountWithout(output, i, JUMP);
    CountIn(before + after, JUMP);
  }

  /** While the switch is up and every command has done its work, OUTPUT holds the jump once. */
  lemma JumpStands(c: Client) returns (before: seq<Rule>, after: seq<Rule>)
    requires c.SwitchSound() && c.clean && c.blocking
    ensures c.tables.output == before + [JUMP] + after && NoJump(before) && NoJump(after)
  {
    var output := c.tables.output;
    BalancedJumps(output, c.foreign, c.timers, true);
    before, after := SplitAtJump(output);
    forall r | r in before + after
      ensures r in output && r != JUMP
    {
    }
  }

  /**
   * Between calls, while the switch is up and every command has done its work: what the rules before
   * the jump decide stays decided, and of all other packets exactly those are accepted that match a
   * split-tunnel exception or are whitelisted for the server the switch was set up with. The rest is
   * dropped, and no rule behind the jump has a say.
   */
  lemma SealedAtRest(c: Client, before: seq<Rule>, after: seq<Rule>, p: Packet)
    requires c.SwitchSound() && c.clean && c.blocking
    requires c.tables.output == before + [JUMP] + after && NoJump(before)
    ensures var first := DecideOutput(before, None, p);
            Decide(c.tables, p) ==
              if first.Some? then first
              else if SomeMatches(c.heads, p) || Whitelisted(c.whitelisted, c.gateway, p) then Some(Accepted)
              else Some(Dropped)
  {
    var full := FullChain(c.whitelisted, c.gateway);
    DecideAccepts(c.heads, full, p);
    SealedMeaning(Exceptions(c.whitelisted, c.gateway), c.whitelisted, c.gateway, p);
    DecideAppend(before + [JUMP], after, c.tables.chain, p);
    DecideAppend(before, [JUMP], c.tables.chain, p);
    NoJumpNoChain(before, None, c.tables.chain, p);
    assert DecideOutput([JUMP], c.tables.chain, p) == DecideChain(c.heads + full, p);
  }

  /**
   * So new traffic to a server, which no other exception covers, gets through exactly when that server
   * is the one the switch was set up with: the server connected before, not the next one.
   */
  lemma NextServerIff(c: Client, next: Addr, before: seq<Rule>, after: seq<Rule>, p: Packet)
    requires c.SwitchSound() && c.clean && c.blocking
    requires c.tables.output == before + [JUMP] + after && NoJump(before)
    requires p.dst == next && DecideOutput(before, None, p) == None
    requires !Whitelisted(None, c.gateway, p) && !SomeMatches(c.heads, p)
    ensures Decide(c.tables, p) == Some(Accepted) <==> c.whitelisted == Some(next)
    ensures Decide(c.tables, p) == Some(Dropped) <==> c.whitelisted != Some(next)
  {
    SealedAtRest(c, before, after, p);
  }

  /** One turn of a failover: down, and an attempt at the next server. */
  datatype Turn = Turn(down: DisconnectEnv, attempt: ConnectEnv)

  predicate SomeTurnWorks(base: Table, turns: seq<Turn>, tunRoutes: seq<Prefix>) {
    turns != [] &&
    var env := turns[0].attempt;
    var after := BaseAfter(base, env);
    (Favourable(env) && RoutesFree(after, env.resolved.value, tunRoutes)) || SomeTurnWorks(after, turns[1..], tunRoutes)
  }

  /**
   * A failover as the client sees it: down from one server, then attempts at others until one works. If
   * the commands of the first Disconnect work, new traffic reaches the old server and no other for as
   * long as no attempt has succeeded.
   */
  method SwitchServer(c: Client, turns: seq<Turn>, p: Packet) returns (ok: bool)
    requires c.AtRest() && c.connected && c.killSwitch && c.clean
    requires turns != [] && DisconnectWorks(turns[0].down)
    requires DecideOutput(c.tables.output, None, p) == None && !Whitelisted(None, c.gateway, p)
    modifies c
    ensures c.AtRest() && ok == c.connected
    ensures ok <==> SomeTurnWorks(old(c.base), turns, c.routesToTun)
    ensures !ok ==> c.clean && c.blocking && Jumps(c.tables.output) == 1
    ensures !ok ==> Decide(c.tables, p) == if Some(p.dst) == old(c.server) then Some(Accepted) else Some(Dropped)
  {
    ghost var before, stale := c.tables.output, Stale(c.server.value, c.port, false);
    BalancedJumps(before, c.foreign, c.timers, false);
    c.Disconnect(turns[0].down);
    JumpAppended(c, before, stale);
    NextServerIff(c, p.dst, before, stale, p);
    ok := c.Connect(turns[0].attempt);
    if !ok {
      ok := KeepSwitching(c, turns[1..]);
      if !ok {
        BalancedJumps(c.tables.output, c.foreign, c.timers, true);
      }
    }
  }

  /** The later turns: until one succeeds they leave the firewall as the first Disconnect has set it up. */
  method KeepSwitching(c: Client, turns: seq<Turn>) returns (ok: bool)
    requires c.AtRest() && !c.connected && c.killSwitch && c.blocking
    modifies c
    ensures c.AtRest() && ok == c.connected && c.routesToTun == old(c.routesToTun)
    ensures ok <==> SomeTurnWorks(old(c.base), turns, c.routesToTun)
    ensures !ok ==> c.blocking && c.tables == old(c.tables) && c.clean == old(c.clean)
  {
    ok := false;
    for i := 0 to |turns|
      invariant c.AtRest() && !c.connected && c.blocking && c.routesToTun == old(c.routesToTun)
      invariant c.tables == old(c.tables) && c.clean == old(c.clean)
      invariant SomeTurnWorks(old(c.base), turns, c.routesToTun) <==> SomeTurnWorks(c.base, turns[i..], c.routesToTun)
    {
      assert turns[i..][1..] == turns[i + 1..];
      ok := OneTurn(c, turns[i]);
      if ok {
        return;
      }
    }
  }

  method OneTurn(c: Client, turn: Turn) returns (ok: bool)
    requires c.AtRest() && !c.connected && c.killSwitch && c.blocking
    modifies c
    ensures c.AtRest() && ok == c.connected && c.routesToTun == old(c.routesToTun)
    ensures c.base == BaseAfter(old(c.base), turn.attempt)
    ensures ok <==> Favourable(turn.attempt) && RoutesFree(c.base, turn.attempt.resolved.value, c.routesToTun)
    ensures !ok ==> c.blocking && c.tables == old(c.tables) && c.clean == old(c.clean)
  {
    c.Disconnect(turn.down);
    ok := c.Connect(turn.attempt);
  }

  lemma JumpAppended(c: Client, before: seq<Rule>, stale: seq<Rule>)
    requires c.SwitchSound() && c.clean && c.blocking && Jumps(before) == 0 && Jumps(stale) == 0
    requires c.tables.output == before + [JUMP] + stale || c.tables.output == before + [] + stale
    ensures c.tables.output == before + [JUMP] + stale && NoJump(before)
  {
    BalancedJumps(c.tables.output, c.foreign, c.timers, true);
    CountSum(before + [], stale, JUMP);
    assert before + [] == before;
    CountIn(before, JUMP);
    forall r | r in before
      ensures r.target != Jump
    {
      assert r in c.tables.output;
    }
  }

  /**
   * Between calls, with the switch down and every command having done its work: a packet that the
   * machine's own rules leave undecided is rejected exactly while a REJECT for its server and port
   * awaits removal, and otherwise left to the policy.
   */
  lemma PendingRejectIff(c: Client, p: Packet)
    requires c.SwitchSound() && c.clean && !c.blocking
    requires forall r :: r in c.foreign && Matches(r.when, p) ==> r.target == Pass
    ensures Decide(c.tables, p) == if SomeMatches(c.timers, p) then Some(Rejected) else None
  {
    var output := c.tables.output;
    forall r: Rule
      ensures r in output <==> r in c.foreign || r in c.timers
    {
      BalancedMembers(output, c.foreign, c.timers, false, r);
    }
    OnlyRejects(output, c.tables.chain, p);
    if SomeMatches(c.timers, p) {
      var r :| r in c.timers && Matches(r.when, p);
      assert r in output;
    }
  }

  /** What a Disconnect rejects without a kill switch: the TCP traffic to that server at that port, no more. */
  method DisconnectRejects(c: Client, env: DisconnectEnv, p: Packet)
    requires c.AtRest() && c.connected && !c.killSwitch && c.clean && c.timers == [] && DisconnectWorks(env)
    requires forall r :: r in c.foreign && Matches(r.when, p) ==> r.target == Pass
    modifies c
    ensures c.AtRest() && !c.connected
    ensures Decide(c.tables, p) == Some(Rejected) <==>
              p.proto == Tcp && p.dst == old(c.server).value
              && (old(c.port).Some? ==> p.dport == old(c.port).value)
  {
    ghost var reject := Rule(TcpTo(c.server.value, c.port), Reject);
    c.Disconnect(env);
    assert c.timers == [reject];
    assert reject in c.timers;
    PendingRejectIff(c, p);
  }

  /**
   * Down from a server and up again at the same one: until the delayed removal, its new TCP traffic is
   * rejected although the client is connected.
   */
  method ReconnectSameServer(c: Client, down: DisconnectEnv, up: ConnectEnv, p: Packet) returns (ok: bool)
    requires c.AtRest() && c.connected && c.clean && DisconnectWorks(down) && NoFaults(up.cleanup)
    requires Matches(TcpTo(c.server.value, c.port), p)
    requires forall r :: r in c.foreign && Matches(r.when, p) ==> r.target == Pass
    modifies c
    ensures c.AtRest() && ok == c.connected
    ensures ok ==> Decide(c.tables, p) == Some(Rejected)
  {
    ghost var reject := Rule(TcpTo(c.server.value, c.port), Reject);
    ghost var timers := c.timers;
    c.Disconnect(down);
    assert c.timers == timers + [reject];
    ok := c.Connect(up);
    if ok {
      assert reject in c.timers;
      PendingRejectIff(c, p);
    }
  }
}
