/** The route table a connected client leaves means what the split-tunnel configuration says. */
module SplitTunnel {
  import opened Net
  import opened Routing
  import opened SplitTunnelRouter

  /** A machine whose only route is the default one. */
  const DEFAULT_ONLY: Table := map[[] := Gateway]

  /** Routes while connected: the server's exception, the TUN routes, and the DNS ones that were free. */
  function TunnelTable(base: Table, server: Addr, tunRoutes: seq<Prefix>, dns: bool): Table {
    var t := Extend(base[server := Gateway], tunRoutes, Tun);
    if dns then Fill(Fill(t, DNS_SERVERS, Tun), DNS_PORT_ROUTES, Tun) else t
  }

  /** The same when single DNS routes may fail to be added. */
  function ConnectedRoutes(base: Table, server: Addr, tunRoutes: seq<Prefix>, dns: bool,
                           dnsFails: nat -> bool, portRouteFails: nat -> bool): Table {
    var t := Extend(base[server := Gateway], tunRoutes, Tun);
    if dns then FillSteps(FillSteps(t, DNS_SERVERS, Tun, dnsFails), DNS_PORT_ROUTES, Tun, portRouteFails) else t
  }

  lemma ConnectedRoutesClean(base: Table, server: Addr, tunRoutes: seq<Prefix>, dns: bool,
                             dnsFails: nat -> bool, portRouteFails: nat -> bool)
    requires forall i :: !dnsFails(i) && !portRouteFails(i)
    ensures ConnectedRoutes(base, server, tunRoutes, dns, dnsFails, portRouteFails) ==
            TunnelTable(base, server, tunRoutes, dns)
  {
    var t := Extend(base[server := Gateway], tunRoutes, Tun);
    FillStepsIsFill(t, DNS_SERVERS, Tun, dnsFails);
    FillStepsIsFill(Fill(t, DNS_SERVERS, Tun), DNS_PORT_ROUTES, Tun, portRouteFails);
  }

  /** What the tunnel table holds, prefix by prefix: DNS protection adds host routes and a default, if free. */
  lemma TunnelEntry(base: Table, server: Addr, tunRoutes: seq<Prefix>, dns: bool, p: Prefix)
    requires Addable(base[server := Gateway], tunRoutes)
    ensures var t := TunnelTable(base, server, tunRoutes, dns);
            && (p in t <==> || p in base || p == server || p in tunRoutes
                            || (dns && (p == [] || p in DNS_SERVERS)))
            && (p in t ==> t[p] == if p == server then Gateway else if p in base then base[p] else Tun)
  {
    assert p in DNS_PORT_ROUTES <==> p == [];
  }

  /** Each protected DNS server is reached through the tunnel, unless it is the server or has a host route. */
  lemma ProtectedDns(base: Table, server: Addr, tunRoutes: seq<Prefix>, dest: Addr)
    requires Addable(base[server := Gateway], tunRoutes) && dest != server && dest !in base
    requires dest in [Ip(8, 8, 8, 8), Ip(8, 8, 4, 4), Ip(1, 1, 1, 1), Ip(1, 0, 0, 1), Ip(9, 9, 9, 9),
                      Ip(149, 112, 112, 112)]
    ensures Lookup(TunnelTable(base, server, tunRoutes, true), dest) == Some(Tun)
  {
    TunnelEntry(base, server, tunRoutes, true, dest);
    HostRouteWins(TunnelTable(base, server, tunRoutes, true), dest);
  }

  function ExcludeTable(base: Table, server: Addr, dns: bool, excluded: seq<Prefix>): Table {
    Fill(TunnelTable(base, server, ALL_TRAFFIC, dns), excluded, Gateway)
  }

  predicate BaseCovers(base: Table, dest: Addr, minLen: nat) {
    exists p :: p in base && |p| >= minLen && Contains(p, dest)
  }

  /** The half of the address space the destination is in, as one of the two /1 routes. */
  lemma HalfRoute(dest: Addr) returns (half: Prefix)
    ensures half in ALL_TRAFFIC && |half| == 1 && Contains(half, dest)
  {
    half := [dest[0]];
    assert half == ALL_TRAFFIC[if dest[0] then 1 else 0];
  }

  lemma LongestDecides(t: Table, dest: Addr, p: Prefix)
    requires LongestMatch(t, dest, p)
    ensures Lookup(t, dest) == Some(t[p])
  {
    LookupIsLongestMatch(t, dest, t[p]);
  }

  /** If no longer match points to the TUN, the /1 routes win only when there is no such match. */
  lemma HalfOrLonger(t: Table, dest: Addr, half: Prefix)
    requires half in t && t[half] == Tun && |half| == 1 && Contains(half, dest)
    requires forall p :: p in t && |p| >= 2 && Contains(p, dest) ==> t[p] != Tun
    ensures Lookup(t, dest) == Some(Tun) <==> !BaseCovers(t, dest, 2)
  {
    if BaseCovers(t, dest, 2) {
      var p :| p in t && |p| >= 2 && Contains(p, dest);
      var best := LongestMatchExists(t, dest, 32);
      LongestDecides(t, dest, best);
    } else {
      LongestDecides(t, dest, half);
    }
  }

  /** The longer routes that contain a destination which has no protected-DNS route. */
  lemma LongerEntry(base: Table, server: Addr, dns: bool, excluded: seq<Prefix>, dest: Addr, p: Prefix)
    requires NoTun(base) && dest != server && !(dns && dest in DNS_SERVERS && dest !in base)
    requires |p| >= 2 && Contains(p, dest)
    ensures var t := ExcludeTable(base, server, dns, excluded);
            && (p in t <==> p in base || p in excluded)
            && (p in t ==> t[p] != Tun)
  {
    assert p !in ALL_TRAFFIC && p !in DNS_PORT_ROUTES;
    assert p in DNS_SERVERS ==> p == dest;
    assert p == server ==> p == dest;
  }

  /**
   * Exclude mode on any machine without TUN routes: a destination other than the server goes into the
   * tunnel exactly when it is a protected DNS server with no host route of its own, or neither an
   * excluded network of at least 2 bits nor a route of the machine that long contains it.
   */
  lemma ExcludeRefines(base: Table, server: Addr, dns: bool, excluded: seq<Prefix>, dest: Addr)
    requires NoTun(base) && Addable(base[server := Gateway], ALL_TRAFFIC)
    requires dest != server
    ensures Lookup(ExcludeTable(base, server, dns, excluded), dest) == Some(Tun) <==>
            || (dns && dest in DNS_SERVERS && dest !in base)
            || !(Covers(excluded, dest, 2) || BaseCovers(base, dest, 2))
  {
    var t := ExcludeTable(base, server, dns, excluded);
    var half := HalfRoute(dest);
    HalfEntry(base, server, dns, excluded, half);
    if dns && dest in DNS_SERVERS && dest !in base {
      assert |dest| == 32 && dest !in ALL_TRAFFIC;
      HostRouteWins(t, dest);
    } else {
      forall p: Prefix | |p| >= 2 && Contains(p, dest)
        ensures p in t ==> t[p] != Tun
        ensures p in t <==> p in base || p in excluded
      {
        LongerEntry(base, server, dns, excluded, dest, p);
      }
      HalfOrLonger(t, dest, half);
    }
  }

  lemma HalfEntry(base: Table, server: Addr, dns: bool, excluded: seq<Prefix>, half: Prefix)
    requires Addable(base[server := Gateway], ALL_TRAFFIC) && half in ALL_TRAFFIC
    ensures var t := ExcludeTable(base, server, dns, excluded); half in t && t[half] == Tun
  {
  }

  /**
   * With only a default route and DNS protection off, the installed routes agree with the router on a
   * destination exactly when that destination, if excluded at all, is excluded by a network of at
   * least 2 bits: an excluded /0 or /1 collides with a route that is already there.
   */
  lemma ExcludeAgreesIff(config: Config, server: Addr, excluded: seq<Prefix>, included: seq<Prefix>, dest: Addr)
    requires config.enabled && config.mode == Exclude && dest != server
    ensures (Lookup(ExcludeTable(DEFAULT_ONLY, server, false, excluded), dest) == Some(Tun)
             <==> ShouldRoute(config, excluded, included, dest))
            <==> (Covers(excluded, dest, 0) ==> Covers(excluded, dest, 2))
  {
    assert Addable(DEFAULT_ONLY[server := Gateway], ALL_TRAFFIC);
    ExcludeRefines(DEFAULT_ONLY, server, false, excluded, dest);
  }

  /** Networks of at least 2 bits are honoured for every destination. */
  lemma ExcludeAgrees(config: Config, server: Addr, excluded: seq<Prefix>, included: seq<Prefix>, dest: Addr)
    requires config.enabled && config.mode == Exclude && dest != server
    requires forall p :: p in excluded ==> |p| >= 2
    ensures Lookup(ExcludeTable(DEFAULT_ONLY, server, false, excluded), dest) == Some(Tun)
            <==> ShouldRoute(config, excluded, included, dest)
  {
    ExcludeAgreesIff(config, server, excluded, included, dest);
  }

  lemma IncludeEntry(server: Addr, dns: bool, included: seq<Prefix>, dest: Addr, p: Prefix)
    requires Addable(DEFAULT_ONLY[server := Gateway], included)
    requires Contains(p, dest) && dest != server && !(dns && dest in DNS_SERVERS)
    ensures var t := TunnelTable(DEFAULT_ONLY, server, included, dns);
            && (p in t <==> p == [] || p in included)
            && (p in t ==> t[p] == if p == [] then Gateway else Tun)
            && (p in included ==> p != [])
  {
    var pinned := DEFAULT_ONLY[server := Gateway];
    assert p == server ==> p == dest;
    assert p in DNS_SERVERS ==> p == dest;
    assert [] in pinned;
  }

  /** Include mode, whenever the TUN routes could be added: exactly the included networks, and protected DNS. */
  lemma IncludeAgrees(config: Config, server: Addr, dns: bool, excluded: seq<Prefix>, included: seq<Prefix>, dest: Addr)
    requires config.enabled && config.mode == Include && dest != server
    requires Addable(DEFAULT_ONLY[server := Gateway], included)
    ensures Lookup(TunnelTable(DEFAULT_ONLY, server, included, dns), dest) == Some(Tun) <==>
            (dns && dest in DNS_SERVERS) || ShouldRoute(config, excluded, included, dest)
  {
    var t := TunnelTable(DEFAULT_ONLY, server, included, dns);
    if dns && dest in DNS_SERVERS {
      HostRouteWins(t, dest);
    } else {
      IncludeEntry(server, dns, included, dest, []);
      assert [] in t && Contains([], dest);
      var best := LongestMatchExists(t, dest, 32);
      LongestDecides(t, dest, best);
      IncludeEntry(server, dns, included, dest, best);
      if p: Prefix :| p in included && Contains(p, dest) {
        IncludeEntry(server, dns, included, dest, p);
        assert |p| <= |best|;
      }
    }
  }

  /** The server itself is always reached through the gateway. */
  lemma ServerBypassesTunnel(base: Table, server: Addr, tunRoutes: seq<Prefix>, dns: bool, excluded: seq<Prefix>)
    requires Addable(base[server := Gateway], tunRoutes)
    ensures var t := TunnelTable(base, server, tunRoutes, dns);
            && Lookup(t, server) == Some(Gateway)
            && Lookup(Fill(t, excluded, Gateway), server) == Some(Gateway)
  {
    var t := TunnelTable(base, server, tunRoutes, dns);
    assert server in base[server := Gateway];
    HostRouteWins(t, server);
    HostRouteWins(Fill(t, excluded, Gateway), server);
  }

  /** The connected client's table after the exclude set-up and the clean-up, single calls failing anywhere. */
  function CleanedTable(base: Table, server: Addr, dns: bool, dnsFails: nat -> bool, portRouteFails: nat -> bool,
                        excluded: seq<Prefix>, addFails: nat -> bool, deleteFails: nat -> bool): Table {
    var connected := ConnectedRoutes(base, server, ALL_TRAFFIC, dns, dnsFails, portRouteFails);
    RemoveSteps(FillSteps(connected, excluded, Gateway, addFails), excluded, Gateway, deleteFails)
  }

  /** Some route of at least 2 bits to the server is left: the machine's own or an excluded one. */
  ghost predicate StillCovered(base: Table, server: Addr, excluded: seq<Prefix>,
                               addFails: nat -> bool, deleteFails: nat -> bool)
  {
    exists p: Prefix :: |p| >= 2 && Contains(p, server) && (p in base || Attempted(excluded, addFails, p))
      && !((p in base ==> base[p] == Gateway) && Attempted(excluded, deleteFails, p))
  }

  lemma ConnectedEntry(base: Table, server: Addr, dns: bool, dnsFails: nat -> bool, portRouteFails: nat -> bool,
                       p: Prefix)
    requires server !in base && Addable(base[server := Gateway], ALL_TRAFFIC) && Contains(p, server) && p != []
    ensures var t := ConnectedRoutes(base, server, ALL_TRAFFIC, dns, dnsFails, portRouteFails);
            && (p in t <==> p == server || p in base || p in ALL_TRAFFIC)
            && (p in t ==> t[p] == if p == server then Gateway else if p in ALL_TRAFFIC then Tun else base[p])
  {
    var t := Extend(base[server := Gateway], ALL_TRAFFIC, Tun);
    if dns {
      FillStepsEntry(t, DNS_SERVERS, Tun, dnsFails, p);
      FillStepsEntry(FillSteps(t, DNS_SERVERS, Tun, dnsFails), DNS_PORT_ROUTES, Tun, portRouteFails, p);
      assert Attempted(DNS_SERVERS, dnsFails, p) ==> p in DNS_SERVERS && p == server;
      assert !Attempted(DNS_PORT_ROUTES, portRouteFails, p);
    }
    assert server !in ALL_TRAFFIC;
  }

  lemma CleanedEntry(base: Table, server: Addr, dns: bool, dnsFails: nat -> bool, portRouteFails: nat -> bool,
                     excluded: seq<Prefix>, addFails: nat -> bool, deleteFails: nat -> bool, p: Prefix)
    requires NoTun(base) && server !in base && Addable(base[server := Gateway], ALL_TRAFFIC)
    requires Contains(p, server) && p != []
    ensures var t := CleanedTable(base, server, dns, dnsFails, portRouteFails, excluded, addFails, deleteFails);
            && (p in ALL_TRAFFIC ==> p in t && t[p] == Tun)
            && (p !in ALL_TRAFFIC && p in t ==> t[p] != Tun)
            && (p !in ALL_TRAFFIC ==> (p in t <==>
                 (p == server || p in base || Attempted(excluded, addFails, p))
                 && !((p in base ==> base[p] == Gateway) && Attempted(excluded, deleteFails, p))))
  {
    var connected := ConnectedRoutes(base, server, ALL_TRAFFIC, dns, dnsFails, portRouteFails);
    ConnectedEntry(base, server, dns, dnsFails, portRouteFails, p);
    FillStepsEntry(connected, excluded, Gateway, addFails, p);
    RemoveStepsEntry(FillSteps(connected, excluded, Gateway, addFails), excluded, Gateway, deleteFails, p);
  }

  /**
   * Cleaning up while connected, on any machine and whatever single calls fail: the server ends up in
   * the tunnel exactly when its own /32 is on the list and gets deleted, and no other route of at least
   * 2 bits to it is left. The clean-up then deletes the exception Connect installed.
   */
  lemma CleanupUnpinsIff(base: Table, server: Addr, dns: bool, dnsFails: nat -> bool, portRouteFails: nat -> bool,
                         excluded: seq<Prefix>, addFails: nat -> bool, deleteFails: nat -> bool)
    requires NoTun(base) && server !in base && Addable(base[server := Gateway], ALL_TRAFFIC)
    ensures var t := CleanedTable(base, server, dns, dnsFails, portRouteFails, excluded, addFails, deleteFails);
            Lookup(t, server) == Some(Tun) <==>
              Attempted(excluded, deleteFails, server) && !StillCovered(base, server, excluded, addFails, deleteFails)
  {
    var t := CleanedTable(base, server, dns, dnsFails, portRouteFails, excluded, addFails, deleteFails);
    forall p: Prefix | Contains(p, server) && p != []
      ensures p in ALL_TRAFFIC ==> p in t && t[p] == Tun
      ensures p !in ALL_TRAFFIC && p in t ==> t[p] != Tun
      ensures p !in ALL_TRAFFIC ==> (p in t <==>
                (p == server || p in base || Attempted(excluded, addFails, p))
                && !((p in base ==> base[p] == Gateway) && Attempted(excluded, deleteFails, p)))
    {
      CleanedEntry(base, server, dns, dnsFails, portRouteFails, excluded, addFails, deleteFails, p);
    }
    var half := HalfRoute(server);
    HalfOrLonger(t, server, half);
    assert Contains(server, server) && server !in ALL_TRAFFIC;
    if BaseCovers(t, server, 2) {
      var p :| p in t && |p| >= 2 && Contains(p, server);
      assert p !in ALL_TRAFFIC;
    }
  }

  /** A machine with a default route only, no call failing: listing the server is enough. */
  lemma CleanupUnpinsListed(server: Addr, dns: bool, excluded: seq<Prefix>)
    ensures var none: nat -> bool := _ => false;
            var t := CleanedTable(DEFAULT_ONLY, server, dns, none, none, excluded, none, none);
            Lookup(t, server) == Some(Tun) <==> server in excluded
  {
    var none: nat -> bool := _ => false;
    assert Addable(DEFAULT_ONLY[server := Gateway], ALL_TRAFFIC);
    CleanupUnpinsIff(DEFAULT_ONLY, server, dns, none, none, excluded, none, none);
    if server in excluded {
      var i :| 0 <= i < |excluded| && excluded[i] == server;
      assert Attempted(excluded, none, server);
    }
  }

  /** An excluded 0.0.0.0/0 asks for every destination to bypass the tunnel, and none of them does. */
  lemma ExcludedDefaultIgnored(config: Config, server: Addr, dest: Addr)
    requires config.enabled && config.mode == Exclude && dest != server
    ensures !ShouldRoute(config, [[]], [], dest)
    ensures Lookup(ExcludeTable(DEFAULT_ONLY, server, false, [[]]), dest) == Some(Tun)
  {
    var all: seq<Prefix> := [[]];
    assert all[0] in all && Contains(all[0], dest);
    ExcludeAgreesIff(config, server, all, [], dest);
  }
}
