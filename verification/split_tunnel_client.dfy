/** Split tunnelling on a connected client: what Connect and the set-up together mean, end to end. */
module SplitTunnelClient {
  import opened Net
  import opened Routing
  import opened Firewall
  import opened KillSwitch
  import opened SplitTunnelRouter
  import opened SplitTunnel
  import opened VpnClient

  /** The table and the router agree on a destination. */
  predicate Agree(t: Table, config: Config, excluded: seq<Prefix>, included: seq<Prefix>, dest: Addr) {
    Lookup(t, dest) == Some(Tun) <==> ShouldRoute(config, excluded, included, dest)
  }

  /** On every destination but the server, they do unless only networks shorter than 2 bits exclude it. */
  ghost predicate ExclusionsHonoured(t: Table, server: Addr, config: Config, excluded: seq<Prefix>,
                                     included: seq<Prefix>)
  {
    forall dest: Addr :: dest != server ==>
      (Agree(t, config, excluded, included, dest) <==> (Covers(excluded, dest, 0) ==> Covers(excluded, dest, 2)))
  }

  ghost predicate InclusionsHonoured(t: Table, server: Addr, config: Config, excluded: seq<Prefix>,
                                     included: seq<Prefix>)
  {
    forall dest: Addr :: dest != server ==> Agree(t, config, excluded, included, dest)
  }

  lemma ExcludeEverywhere(server: Addr, config: Config, excluded: seq<Prefix>, included: seq<Prefix>)
    requires config.enabled && config.mode == Exclude
    ensures ExclusionsHonoured(
              FillSteps(ConnectedRoutes(DEFAULT_ONLY, server, ALL_TRAFFIC, false, _ => false, _ => false),
                        excluded, Gateway, _ => false),
              server, config, excluded, included)
  {
    FillStepsIsFill(TunnelTable(DEFAULT_ONLY, server, ALL_TRAFFIC, false), excluded, Gateway, _ => false);
    forall dest: Addr | dest != server
      ensures Agree(ExcludeTable(DEFAULT_ONLY, server, false, excluded), config, excluded, included, dest)
              <==> (Covers(excluded, dest, 0) ==> Covers(excluded, dest, 2))
    {
      ExcludeAgreesIff(config, server, excluded, included, dest);
    }
  }

  lemma IncludeEverywhere(server: Addr, config: Config, excluded: seq<Prefix>, included: seq<Prefix>)
    requires config.enabled && config.mode == Include
    requires Addable(DEFAULT_ONLY[server := Gateway], included)
    ensures InclusionsHonoured(
              ConnectedRoutes(DEFAULT_ONLY, server, included, false, _ => false, _ => false),
              server, config, excluded, included)
  {
    forall dest: Addr | dest != server
      ensures Agree(TunnelTable(DEFAULT_ONLY, server, included, false), config, excluded, included, dest)
    {
      IncludeAgrees(config, server, false, excluded, included, dest);
    }
    ConnectedRoutesClean(DEFAULT_ONLY, server, included, false, _ => false, _ => false);
  }

  /** A client that is down, on a machine with nothing but a default route, with DNS protection off. */
  ghost predicate Plain(c: Client)
    reads c
  {
    c.AtRest() && !c.connected && c.routes == DEFAULT_ONLY && !c.dnsProtection
  }

  /** Nothing is pinned yet, so a favourable Connect fails only on the TUN routes themselves. */
  method ConnectPlain(c: Client, env: ConnectEnv) returns (ok: bool)
    requires Plain(c)
    modifies c
    ensures c.AtRest() && ok == c.connected && c.router == old(c.router) && c.routesToTun == old(c.routesToTun)
    ensures ok <==> Favourable(env) && Addable(DEFAULT_ONLY[env.resolved.value := Gateway], c.routesToTun)
    ensures ok ==>
              c.routes ==
                ConnectedRoutes(DEFAULT_ONLY, env.resolved.value, c.routesToTun, false, _ => false, _ => false)
  {
    ok := c.Connect(env);
    assert env.resolved.Some? ==> Remove(DEFAULT_ONLY, [env.resolved.value], Gateway) == DEFAULT_ONLY;
  }

  /**
   * Exclude mode end to end: the table left by Connect and the set-up sends every destination but the
   * server where ShouldRouteThroughVPN says, except those excluded only by networks shorter than 2 bits.
   */
  method ConnectExcluding(c: Client, env: ConnectEnv, config: Config, parse: Parser) returns (ok: bool)
    requires Plain(c) && c.routesToTun == ALL_TRAFFIC
    requires config.enabled && config.mode == Exclude && Usable(config, parse)
    modifies c
    ensures c.AtRest() && ok == c.connected && (ok <==> Favourable(env))
    ensures ok ==>
              && c.router != null && c.router.Valid() && c.router.config == config
              && ExclusionsHonoured(c.routes, env.resolved.value, config, c.router.excludeNets, c.router.includeNets)
  {
    ok := ConnectPlain(c, env);
    if ok {
      var configured := c.SetupSplitTunneling(config, parse, _ => false);
      ExcludeEverywhere(env.resolved.value, config, c.router.excludeNets, c.router.includeNets);
    }
  }

  /** Include mode end to end: the networks replace RoutesToTUN, and the Connect that follows installs them. */
  method ConnectIncluding(c: Client, env: ConnectEnv, config: Config, parse: Parser) returns (ok: bool)
    requires Plain(c)
    requires config.enabled && config.mode == Include && Usable(config, parse)
    modifies c
    ensures c.AtRest() && ok == c.connected
    ensures c.router != null && c.router.Valid() && c.router.config == config
    ensures ok <==> Favourable(env) && Addable(DEFAULT_ONLY[env.resolved.value := Gateway], c.router.includeNets)
    ensures ok ==> InclusionsHonoured(c.routes, env.resolved.value, config, c.router.excludeNets, c.router.includeNets)
  {
    var configured := c.SetupSplitTunneling(config, parse, _ => false);
    ok := ConnectPlain(c, env);
    if ok {
      IncludeEverywhere(env.resolved.value, config, c.router.excludeNets, c.router.includeNets);
    }
  }

  /**
   * The kill switch agrees with the split tunnel: with every insert working, the chain accepts a packet
   * exactly when it did before or ShouldRouteThroughVPN of its destination is false.
   */
  lemma IntegrationAgrees(config: Config, excluded: seq<Prefix>, included: seq<Prefix>, chain: seq<Rule>, p: Packet)
    requires config.enabled && config.mode == Exclude
    ensures DecideChain(HeadExceptions(excluded, _ => false) + chain, p) == Some(Accepted) <==>
            DecideChain(chain, p) == Some(Accepted) || !ShouldRoute(config, excluded, included, p.dst)
  {
    HeadExceptionsMeaning(excluded, _ => false, chain, p);
    if Covers(excluded, p.dst, 0) {
      var net: Prefix :| net in excluded && Contains(net, p.dst);
      var i :| 0 <= i < |excluded| && excluded[i] == net;
    }
  }
}
