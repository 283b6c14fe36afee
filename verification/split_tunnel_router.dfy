/** The split-tunnel configuration and the simple rule that says where a destination should go. */
module SplitTunnelRouter {
  import opened Net

  datatype Mode = Exclude | Include | Disabled | Unknown(name: string)
  datatype Config = Config(enabled: bool, mode: Mode, excludeCidrs: seq<string>, includeCidrs: seq<string>)

  /** CIDR notation is read by the Go library; None stands for a parse error. */
  type Parser = string -> Option<Prefix>

  predicate AllParse(parse: Parser, texts: seq<string>) {
    forall i :: 0 <= i < |texts| ==> parse(texts[i]).Some?
  }

  function ParseAll(parse: Parser, texts: seq<string>): (nets: seq<Prefix>)
    requires AllParse(parse, texts)
    ensures |nets| == |texts|
  {
    seq(|texts|, i requires 0 <= i < |texts| => parse(texts[i]).value)
  }

  /** The configurations NewSplitTunnelRouter turns into a router. */
  predicate Usable(config: Config, parse: Parser) {
    && AllParse(parse, config.excludeCidrs)
    && AllParse(parse, config.includeCidrs)
    && (config.enabled ==>
          && !config.mode.Unknown?
          && (config.mode == Exclude ==> config.excludeCidrs != [])
          && (config.mode == Include ==> config.includeCidrs != []))
  }

  /** Documented routing: exclude mode sends everything but the list, include mode nothing but the list. */
  predicate ShouldRoute(config: Config, excluded: seq<Prefix>, included: seq<Prefix>, dest: Addr) {
    config.enabled ==>
      && (config.mode == Exclude ==> !Covers(excluded, dest, 0))
      && (config.mode == Include ==> Covers(included, dest, 0))
  }

  class Router {
    const config: Config
    const parse: Parser
    var excludeNets: seq<Prefix>
    var includeNets: seq<Prefix>

    predicate Valid()
      reads this
    {
      && Usable(config, parse)
      && excludeNets == ParseAll(parse, config.excludeCidrs)
      && includeNets == ParseAll(parse, config.includeCidrs)
    }

    constructor (config: Config, parse: Parser)
      ensures this.config == config && this.parse == parse
      ensures excludeNets == [] && includeNets == []
    {
      this.config, this.parse := config, parse;
      excludeNets, includeNets := [], [];
    }

    method ParseCidrs() returns (ok: bool)
      requires excludeNets == [] && includeNets == []
      modifies this
      ensures ok <==> AllParse(parse, config.excludeCidrs) && AllParse(parse, config.includeCidrs)
      ensures ok ==> excludeNets == ParseAll(parse, config.excludeCidrs)
      ensures ok ==> includeNets == ParseAll(parse, config.includeCidrs)
    {
      for i := 0 to |config.excludeCidrs|
        invariant |excludeNets| == i && includeNets == []
        invariant forall k :: 0 <= k < i ==> parse(config.excludeCidrs[k]) == Some(excludeNets[k])
      {
        var net := parse(config.excludeCidrs[i]);
        if net.None? {
          return false;
        }
        excludeNets := excludeNets + [net.value];
      }
      for i := 0 to |config.includeCidrs|
        invariant |includeNets| == i
        invariant |excludeNets| == |config.excludeCidrs|
        invariant forall k :: 0 <= k < |excludeNets| ==> parse(config.excludeCidrs[k]) == Some(excludeNets[k])
        invariant forall k :: 0 <= k < i ==> parse(config.includeCidrs[k]) == Some(includeNets[k])
      {
        var net := parse(config.includeCidrs[i]);
        if net.None? {
          return false;
        }
        includeNets := includeNets + [net.value];
      }
      return true;
    }

    method ShouldRouteThroughVpn(dest: Addr) returns (tunnelled: bool)
      requires Valid()
      ensures tunnelled == ShouldRoute(config, excludeNets, includeNets, dest)
      ensures !config.enabled || config.mode.Disabled? || config.mode.Unknown? ==> tunnelled
      ensures config.enabled && config.mode == Exclude ==>
                (tunnelled <==> forall i :: 0 <= i < |excludeNets| ==> !(excludeNets[i] <= dest))
      ensures config.enabled && config.mode == Include ==>
                (tunnelled <==> exists i :: 0 <= i < |includeNets| && includeNets[i] <= dest)
    {
      if !config.enabled {
        return true;
      }
      match config.mode {
        case Exclude =>
          for i := 0 to |excludeNets|
            invariant forall k :: 0 <= k < i ==> !Contains(excludeNets[k], dest)
          {
            if Contains(excludeNets[i], dest) {
              assert excludeNets[i] in excludeNets;
              return false;
            }
          }
          return true;
        case Include =>
          for i := 0 to |includeNets|
            invariant forall k :: 0 <= k < i ==> !Contains(includeNets[k], dest)
          {
            if Contains(includeNets[i], dest) {
              assert includeNets[i] in includeNets;
              return true;
            }
          }
          return false;
        case Disabled => return true;
        case Unknown(_) => return true;
      }
    }

    /** route.MustParseAddr cannot panic here: the router exists only if every CIDR parsed. */
    method GetExcludedRoutes() returns (routes: seq<Prefix>)
      requires Valid()
      ensures routes == if config.mode == Exclude then excludeNets else []
    {
      routes := [];
      if config.mode != Exclude {
        return;
      }
      for i := 0 to |config.excludeCidrs|
        invariant routes == excludeNets[..i]
      {
        routes := routes + [parse(config.excludeCidrs[i]).value];
      }
    }

    method GetIncludedRoutes() returns (routes: seq<Prefix>)
      requires Valid()
      ensures routes == if config.mode == Include then includeNets else []
    {
      routes := [];
      if config.mode != Include {
        return;
      }
      for i := 0 to |config.includeCidrs|
        invariant routes == includeNets[..i]
      {
        routes := routes + [parse(config.includeCidrs[i]).value];
      }
    }
  }

  /** SplitTunnelConfig.Validate: only an enabled configuration is checked, and only its active list. */
  method Validate(config: Config, parse: Parser) returns (ok: bool)
    ensures ok <==> config.enabled ==>
                      && !config.mode.Unknown?
                      && (config.mode == Exclude ==> config.excludeCidrs != [] && AllParse(parse, config.excludeCidrs))
                      && (config.mode == Include ==> config.includeCidrs != [] && AllParse(parse, config.includeCidrs))
  {
    if !config.enabled {
      return true;
    }
    if config.mode.Unknown? {
      return false;
    }
    if config.mode == Exclude {
      if config.excludeCidrs == [] {
        return false;
      }
      for i := 0 to |config.excludeCidrs|
        invariant AllParse(parse, config.excludeCidrs[..i])
      {
        if parse(config.excludeCidrs[i]).None? {
          return false;
        }
      }
      assert config.excludeCidrs[..|config.excludeCidrs|] == config.excludeCidrs;
    }
    if config.mode == Include {
      if config.includeCidrs == [] {
        return false;
      }
      for i := 0 to |config.includeCidrs|
        invariant AllParse(parse, config.includeCidrs[..i])
      {
        if parse(config.includeCidrs[i]).None? {
          return false;
        }
      }
      assert config.includeCidrs[..|config.includeCidrs|] == config.includeCidrs;
    }
    return true;
  }

  method NewRouter(config: Config, parse: Parser) returns (router: Router?)
    ensures router != null <==> Usable(config, parse)
    ensures router != null <==>
              && (forall i :: 0 <= i < |config.excludeCidrs| ==> parse(config.excludeCidrs[i]).Some?)
              && (forall i :: 0 <= i < |config.includeCidrs| ==> parse(config.includeCidrs[i]).Some?)
              && (config.enabled ==>
                    && !config.mode.Unknown?
                    && (config.mode == Exclude ==> config.excludeCidrs != [])
                    && (config.mode == Include ==> config.includeCidrs != []))
    ensures router != null ==> fresh(router) && router.Valid() && router.config == config && router.parse == parse
  {
    var valid := Validate(config, parse);
    if !valid {
      return null;
    }
    var r := new Router(config, parse);
    var parsed := r.ParseCidrs();
    if !parsed {
      return null;
    }
    return r;
  }
}
