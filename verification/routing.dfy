/** The kernel's IPv4 route table and its longest-prefix-match lookup. */
module Routing {
  import opened Net

  /** Next hops: the default gateway, the client's TUN device, or some other interface of the machine. */
  datatype Hop = Gateway | Tun | Elsewhere
  type Table = map<Prefix, Hop>

  const ALL_TRAFFIC: seq<Prefix> := [[false], [true]]        // 0.0.0.0/1 and 128.0.0.0/1
  const DNS_SERVERS: seq<Addr> :=
    [Ip(8, 8, 8, 8), Ip(8, 8, 4, 4), Ip(1, 1, 1, 1), Ip(1, 0, 0, 1), Ip(9, 9, 9, 9), Ip(149, 112, 112, 112)]
  const DNS_PORT_ROUTES: seq<Prefix> := [[]]                 // 0.0.0.0/0

  predicate Distinct(ps: seq<Prefix>) {
    forall i, j :: 0 <= i < j < |ps| ==> ps[i] != ps[j]
  }

  /** Whether one Add of all these prefixes meets no prefix that is already there. */
  predicate Addable(t: Table, ps: seq<Prefix>) {
    Distinct(ps) && forall p :: p in ps ==> p !in t
  }

  function Extend(t: Table, ps: seq<Prefix>, hop: Hop): Table {
    t + (map p | p in ps :: hop)
  }

  /** What trying each prefix on its own leaves: the ones already there keep their hop. */
  function Fill(t: Table, ps: seq<Prefix>, hop: Hop): Table {
    t + (map p | p in ps && p !in t :: hop)
  }

  /** Delete matches the next hop as well as the prefix. */
  function Remove(t: Table, ps: seq<Prefix>, hop: Hop): Table {
    map p | p in t && !(p in ps && t[p] == hop) :: t[p]
  }

  /** Closing the TUN device takes its routes with it. */
  function DropTun(t: Table): Table {
    map p | p in t && t[p] != Tun :: t[p]
  }

  predicate NoTun(t: Table) {
    forall p :: p in t ==> t[p] != Tun
  }

  /** Prefixes pinned to the gateway for one single host. */
  function HostExceptions(t: Table): set<Prefix> {
    set p | p in t && |p| == 32 && t[p] == Gateway
  }

  function LookupFrom(t: Table, a: Addr, n: nat): Option<Hop>
    requires n <= 32
  {
    if a[..n] in t then Some(t[a[..n]])
    else if n == 0 then None
    else LookupFrom(t, a, n - 1)
  }

  /** Kernel lookup: try the whole address, then ever shorter prefixes of it. */
  function Lookup(t: Table, a: Addr): Option<Hop> {
    LookupFrom(t, a, 32)
  }

  /** Section 5.1 of RFC 4632: the longest prefix in the table that contains the address. */
  ghost predicate LongestMatch(t: Table, a: Addr, p: Prefix) {
    p in t && Contains(p, a) && forall q :: q in t && Contains(q, a) ==> |q| <= |p|
  }

  lemma {:induction false} LookupFromFinds(t: Table, a: Addr, n: nat, p: Prefix)
    requires |p| <= n <= 32
    requires LongestMatch(t, a, p)
    ensures LookupFrom(t, a, n) == Some(t[p])
  {
    if n == |p| {
      assert a[..n] == p;
    } else {
      assert Contains(a[..n], a) && a[..n] !in t;
      LookupFromFinds(t, a, n - 1, p);
    }
  }

  lemma {:induction false} LookupFromMisses(t: Table, a: Addr, n: nat)
    requires n <= 32
    requires forall p :: p in t ==> !Contains(p, a)
    ensures LookupFrom(t, a, n) == None
  {
    assert Contains(a[..n], a);
    if n > 0 {
      LookupFromMisses(t, a, n - 1);
    }
  }

  /** Among the matching prefixes up to n bits there is a longest one. */
  lemma {:induction false} LongestMatchExists(t: Table, a: Addr, n: nat) returns (p: Prefix)
    requires n <= 32
    requires forall q :: q in t && Contains(q, a) ==> |q| <= n
    requires exists q :: q in t && Contains(q, a)
    ensures LongestMatch(t, a, p)
  {
    if a[..n] in t {
      p := a[..n];
    } else {
      forall q | q in t && Contains(q, a)
        ensures |q| < n
      {
        assert q == a[..|q|];
      }
      p := LongestMatchExists(t, a, n - 1);
    }
  }

  /** The lookup loop computes exactly the hop of the longest matching prefix. */
  lemma LookupIsLongestMatch(t: Table, a: Addr, hop: Hop)
    ensures Lookup(t, a) == Some(hop) <==> exists p :: LongestMatch(t, a, p) && t[p] == hop
    ensures Lookup(t, a) == None <==> forall p :: p in t ==> !Contains(p, a)
  {
    if p :| p in t && Contains(p, a) {
      var best := LongestMatchExists(t, a, 32);
      LookupFromFinds(t, a, 32, best);
      forall q | LongestMatch(t, a, q) ensures q == best {
        assert q == a[..|q|] && best == a[..|best|];
      }
    } else {
      LookupFromMisses(t, a, 32);
    }
  }

  /** A host route decides the lookup of that host whatever else the table holds. */
  lemma HostRouteWins(t: Table, a: Addr)
    requires a in t
    ensures Lookup(t, a) == Some(t[a])
  {
    LookupFromFinds(t, a, 32, a);
  }

  lemma NoTunLookup(t: Table, a: Addr)
    requires NoTun(t)
    ensures Lookup(t, a) != Some(Tun)
  {
    LookupIsLongestMatch(t, a, Tun);
  }

  /** Adding the prefixes one call at a time; a call fails when the prefix is there, or when `fails` says so. */
  function FillSteps(t: Table, ps: seq<Prefix>, hop: Hop, fails: nat -> bool): Table {
    if ps == [] then t
    else
      var k := |ps| - 1;
      var t' := FillSteps(t, ps[..k], hop, fails);
      if fails(k) || ps[k] in t' then t' else t'[ps[k] := hop]
  }

  /** Deleting them one call at a time; a call fails when nothing matches, or when `fails` says so. */
  function RemoveSteps(t: Table, ps: seq<Prefix>, hop: Hop, fails: nat -> bool): Table {
    if ps == [] then t
    else
      var k := |ps| - 1;
      var t' := RemoveSteps(t, ps[..k], hop, fails);
      if fails(k) then t' else Remove(t', [ps[k]], hop)
  }

  /** Some call for this prefix was not made to fail. */
  predicate Attempted(ps: seq<Prefix>, fails: nat -> bool, p: Prefix) {
    exists i :: 0 <= i < |ps| && ps[i] == p && !fails(i)
  }

  lemma AttemptedGrows(ps: seq<Prefix>, fails: nat -> bool, p: Prefix)
    requires ps != []
    ensures var k := |ps| - 1;
            Attempted(ps, fails, p) <==> Attempted(ps[..k], fails, p) || (ps[k] == p && !fails(k))
  {
    var k := |ps| - 1;
    if i :| 0 <= i < k && ps[..k][i] == p && !fails(i) {
      assert ps[i] == p;
    }
    if i :| 0 <= i < |ps| && ps[i] == p && !fails(i) {
      assert i < k ==> ps[..k][i] == p;
    }
  }

  lemma {:induction false} FillStepsEntry(t: Table, ps: seq<Prefix>, hop: Hop, fails: nat -> bool, p: Prefix)
    ensures var filled := FillSteps(t, ps, hop, fails);
            && (p in filled <==> p in t || Attempted(ps, fails, p))
            && (p in filled ==> filled[p] == if p in t then t[p] else hop)
  {
    if ps != [] {
      AttemptedGrows(ps, fails, p);
      FillStepsEntry(t, ps[..|ps| - 1], hop, fails, p);
    }
  }

  lemma {:induction false} RemoveStepsEntry(t: Table, ps: seq<Prefix>, hop: Hop, fails: nat -> bool, p: Prefix)
    ensures var left := RemoveSteps(t, ps, hop, fails);
            && (p in left <==> p in t && !(t[p] == hop && Attempted(ps, fails, p)))
            && (p in left ==> left[p] == t[p])
  {
    if ps != [] {
      AttemptedGrows(ps, fails, p);
      RemoveStepsEntry(t, ps[..|ps| - 1], hop, fails, p);
    }
  }

  /** With no spurious failure, adding one by one fills in every prefix that was missing. */
  lemma FillStepsIsFill(t: Table, ps: seq<Prefix>, hop: Hop, fails: nat -> bool)
    requires forall i :: 0 <= i < |ps| ==> !fails(i)
    ensures FillSteps(t, ps, hop, fails) == Fill(t, ps, hop)
  {
    var a, b := FillSteps(t, ps, hop, fails), Fill(t, ps, hop);
    forall p: Prefix
      ensures (p in a <==> p in b) && (p in a ==> a[p] == b[p])
    {
      FillStepsEntry(t, ps, hop, fails, p);
      if p in ps {
        var i :| 0 <= i < |ps| && ps[i] == p;
        assert Attempted(ps, fails, p);
      }
    }
    assert a.Keys == b.Keys;
  }

  /**
   * Adding a list of routes and later deleting it gives the old table back, whatever calls fail,
   * exactly when no delete takes a route that was there before and every route that was added has
   * a delete that works.
   */
  lemma Restoration(t: Table, ps: seq<Prefix>, hop: Hop, addFails: nat -> bool, deleteFails: nat -> bool)
    ensures RemoveSteps(FillSteps(t, ps, hop, addFails), ps, hop, deleteFails) == t <==>
            forall p :: p in ps ==>
              && (p in t && t[p] == hop ==> !Attempted(ps, deleteFails, p))
              && (p !in t && Attempted(ps, addFails, p) ==> Attempted(ps, deleteFails, p))
  {
    var filled := FillSteps(t, ps, hop, addFails);
    var left := RemoveSteps(filled, ps, hop, deleteFails);
    forall p: Prefix
      ensures p in left <==> (p in t || Attempted(ps, addFails, p))
                             && !((if p in t then t[p] else hop) == hop && Attempted(ps, deleteFails, p))
      ensures p in left ==> left[p] == if p in t then t[p] else hop
      ensures Attempted(ps, addFails, p) || Attempted(ps, deleteFails, p) ==> p in ps
    {
      FillStepsEntry(t, ps, hop, addFails, p);
      RemoveStepsEntry(filled, ps, hop, deleteFails, p);
    }
    if forall p :: p in ps ==>
        && (p in t && t[p] == hop ==> !Attempted(ps, deleteFails, p))
        && (p !in t && Attempted(ps, addFails, p) ==> Attempted(ps, deleteFails, p))
    {
      assert left.Keys == t.Keys;
    } else {
      var p :| p in ps && !(&& (p in t && t[p] == hop ==> !Attempted(ps, deleteFails, p))
                            && (p !in t && Attempted(ps, addFails, p) ==> Attempted(ps, deleteFails, p)));
      assert p in left <==> p !in t;
    }
  }

  /** A gateway route the machine had before is lost when it is listed: the Add fails, the Delete does not. */
  lemma RestorationLost(p: Prefix)
    ensures var none: nat -> bool := _ => false;
            var t: Table := map[p := Gateway];
            RemoveSteps(FillSteps(t, [p], Gateway, none), [p], Gateway, none) == map[]
  {
    var none: nat -> bool := _ => false;
    assert [p][..0] == [];
  }

  /** Dropping the TUN routes and the server's exception leaves the routes that were there before. */
  lemma Unpinning(base: Table, t: Table, server: Addr)
    requires NoTun(base) && server !in base && DropTun(t) == base[server := Gateway]
    ensures server in t && t[server] == Gateway
    ensures Remove(DropTun(t), [server], Gateway) == base
  {
    assert server in DropTun(t);
  }

  lemma NothingOfTun(base: Table, ps: seq<Prefix>)
    requires NoTun(base)
    ensures Remove(base, ps, Tun) == base
  {
  }

  lemma TunRoutesComeOff(t: Table, ps: seq<Prefix>)
    requires Addable(t, ps)
    ensures DropTun(Extend(t, ps, Tun)) == DropTun(t)
  {
  }

  lemma TunStepsComeOff(t: Table, ps: seq<Prefix>, fails: nat -> bool)
    ensures DropTun(FillSteps(t, ps, Tun, fails)) == DropTun(t)
  {
    var filled := FillSteps(t, ps, Tun, fails);
    forall p: Prefix
      ensures p in filled ==> if p in t then filled[p] == t[p] else filled[p] == Tun
      ensures p in t ==> p in filled
    {
      FillStepsEntry(t, ps, Tun, fails, p);
    }
    assert DropTun(filled).Keys == DropTun(t).Keys;
  }

  /** The routes of `t` that `before` does not have. */
  function Added(before: Table, t: Table): Table {
    map p | p in t && p !in before :: t[p]
  }

  /** Gateway routes added one by one stay when the TUN goes. */
  lemma GatewayStepsStay(t: Table, ps: seq<Prefix>, fails: nat -> bool)
    ensures var filled := FillSteps(t, ps, Gateway, fails);
            && NoTun(Added(t, filled))
            && filled == t + Added(t, filled)
            && DropTun(filled) == DropTun(t) + Added(t, filled)
  {
    var filled := FillSteps(t, ps, Gateway, fails);
    forall p: Prefix
      ensures p in filled ==> if p in t then filled[p] == t[p] else filled[p] == Gateway
      ensures p in t ==> p in filled
    {
      FillStepsEntry(t, ps, Gateway, fails, p);
    }
    assert filled.Keys == (t + Added(t, filled)).Keys;
    assert DropTun(filled).Keys == (DropTun(t) + Added(t, filled)).Keys;
  }

  /** A client's own routes aside, such gateway routes simply join the machine's. */
  lemma RestGrows(base: Table, t: Table, server: Addr, ps: seq<Prefix>, fails: nat -> bool)
    requires NoTun(base) && server !in base && DropTun(t) == base[server := Gateway]
    ensures var filled := FillSteps(t, ps, Gateway, fails);
            var base' := base + Added(t, filled);
            NoTun(base') && server !in base' && DropTun(filled) == base'[server := Gateway]
  {
    GatewayStepsStay(t, ps, fails);
    assert server in DropTun(t);
  }

  lemma NothingAdded(base: Table, t: Table)
    ensures base + Added(t, t) == base
  {
  }

  /** Deleting gateway routes leaves the server's exception alone unless it is one of them. */
  lemma RestShrinks(base: Table, t: Table, server: Addr, ps: seq<Prefix>, fails: nat -> bool)
    requires NoTun(base) && server !in base && DropTun(t) == base[server := Gateway]
    requires !Attempted(ps, fails, server)
    ensures var base' := RemoveSteps(base, ps, Gateway, fails);
            && NoTun(base') && server !in base'
            && DropTun(RemoveSteps(t, ps, Gateway, fails)) == base'[server := Gateway]
  {
    RemovedSteps(t, ps, fails);
    RemovedSteps(base, ps, fails);
    RemoveStepsSkips(base, ps, fails, server);
    RemoveStepsEntry(base, ps, Gateway, fails, server);
  }

  lemma AttemptedPrefix(ps: seq<Prefix>, n: nat, fails: nat -> bool, p: Prefix)
    requires n <= |ps| && Attempted(ps[..n], fails, p)
    ensures Attempted(ps, fails, p)
  {
    var i :| 0 <= i < n && ps[..n][i] == p && !fails(i);
    assert ps[i] == p;
  }

  /** Gateway routes deleted one by one do not concern the TUN routes. */
  lemma RemovedSteps(t: Table, ps: seq<Prefix>, fails: nat -> bool)
    ensures DropTun(RemoveSteps(t, ps, Gateway, fails)) == RemoveSteps(DropTun(t), ps, Gateway, fails)
    ensures NoTun(t) ==> NoTun(RemoveSteps(t, ps, Gateway, fails))
  {
    var a, b := DropTun(RemoveSteps(t, ps, Gateway, fails)), RemoveSteps(DropTun(t), ps, Gateway, fails);
    forall p: Prefix
      ensures (p in a <==> p in b) && (p in a ==> a[p] == b[p])
      ensures p in RemoveSteps(t, ps, Gateway, fails) ==> p in t && RemoveSteps(t, ps, Gateway, fails)[p] == t[p]
    {
      RemoveStepsEntry(t, ps, Gateway, fails, p);
      RemoveStepsEntry(DropTun(t), ps, Gateway, fails, p);
    }
    assert a.Keys == b.Keys;
  }

  /** An entry that no delete is attempted for can be added before or after. */
  lemma {:induction false} RemoveStepsSkips(t: Table, ps: seq<Prefix>, fails: nat -> bool, p: Prefix)
    requires p !in t && !Attempted(ps, fails, p)
    ensures RemoveSteps(t[p := Gateway], ps, Gateway, fails) == RemoveSteps(t, ps, Gateway, fails)[p := Gateway]
  {
    var a, b := RemoveSteps(t[p := Gateway], ps, Gateway, fails), RemoveSteps(t, ps, Gateway, fails)[p := Gateway];
    forall q: Prefix
      ensures (q in a <==> q in b) && (q in a ==> a[q] == b[q])
    {
      RemoveStepsEntry(t[p := Gateway], ps, Gateway, fails, q);
      RemoveStepsEntry(t, ps, Gateway, fails, q);
    }
    assert a.Keys == b.Keys;
  }
}
