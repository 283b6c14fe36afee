/** iptables as the client uses it: the OUTPUT chain and the program's own chain, first match wins. */
module Firewall {
  import opened Net

  datatype Proto = Tcp | Udp | OtherProto

  /** An outgoing packet; `foreign` names the matches of other people's rules that it satisfies. */
  datatype Packet = Packet(
    loopback: bool, established: bool, dst: Addr, proto: Proto, dport: nat, foreign: set<nat>)

  datatype Match =
    | Any
    | OutLoopback
    | Established
    | To(net: Prefix)
    | Dns(proto: Proto, server: Addr)
    | TcpTo(host: Addr, port: Option<nat>)
    | Foreign(id: nat)

  /** `Pass` is a target of somebody else's rule that decides nothing, such as LOG. */
  datatype Target = Accept | Drop | Reject | Jump | Pass
  datatype Rule = Rule(when: Match, target: Target)
  datatype Verdict = Accepted | Dropped | Rejected

  /** `chain` is goxray_killswitch; None when it does not exist. */
  datatype Tables = Tables(output: seq<Rule>, chain: Option<seq<Rule>>)

  datatype Command =
    | NewChain
    | FlushChain
    | DeleteChain
    | AppendChain(rule: Rule)
    | InsertChain(rule: Rule)
    | AppendOutput(rule: Rule)
    | DeleteOutput(rule: Rule)

  const DNS_PORT := 53
  const JUMP := Rule(Any, Jump)

  predicate Matches(m: Match, p: Packet) {
    match m
    case Any => true
    case OutLoopback => p.loopback
    case Established => p.established
    case To(net) => Contains(net, p.dst)
    case Dns(proto, server) => p.proto == proto && p.dport == DNS_PORT && p.dst == server
    case TcpTo(host, port) => p.proto == Tcp && p.dst == host && (port.Some? ==> p.dport == port.value)
    case Foreign(id) => id in p.foreign
  }

  /** First match in a chain that does not jump any further. */
  function DecideChain(rules: seq<Rule>, p: Packet): Option<Verdict> {
    if rules == [] then None
    else if !Matches(rules[0].when, p) then DecideChain(rules[1..], p)
    else match rules[0].target
      case Accept => Some(Accepted)
      case Drop => Some(Dropped)
      case Reject => Some(Rejected)
      case Jump => DecideChain(rules[1..], p)
      case Pass => DecideChain(rules[1..], p)
  }

  /** First match in OUTPUT; a jump that decides nothing returns. None leaves it to the policy. */
  function DecideOutput(rules: seq<Rule>, chain: Option<seq<Rule>>, p: Packet): Option<Verdict> {
    if rules == [] then None
    else if !Matches(rules[0].when, p) then DecideOutput(rules[1..], chain, p)
    else match rules[0].target
      case Accept => Some(Accepted)
      case Drop => Some(Dropped)
      case Reject => Some(Rejected)
      case Pass => DecideOutput(rules[1..], chain, p)
      case Jump =>
        var inner := if chain.Some? then DecideChain(chain.value, p) else None;
        if inner.Some? then inner else DecideOutput(rules[1..], chain, p)
  }

  function Decide(t: Tables, p: Packet): Option<Verdict> {
    DecideOutput(t.output, t.chain, p)
  }

  function RemoveFirst(rules: seq<Rule>, r: Rule): (rest: seq<Rule>) {
    if rules == [] then []
    else if rules[0] == r then rules[1..]
    else [rules[0]] + RemoveFirst(rules[1..], r)
  }

  /** The tables after one command, or None when iptables exits with an error. */
  function Run(t: Tables, c: Command): Option<Tables> {
    match c
    case NewChain => if t.chain.None? then Some(t.(chain := Some([]))) else None
    case FlushChain => if t.chain.Some? then Some(t.(chain := Some([]))) else None
    case DeleteChain => if t.chain == Some([]) && NoJump(t.output) then Some(t.(chain := None)) else None
    case AppendChain(r) => if t.chain.Some? then Some(t.(chain := Some(t.chain.value + [r]))) else None
    case InsertChain(r) => if t.chain.Some? then Some(t.(chain := Some([r] + t.chain.value))) else None
    case AppendOutput(r) =>
      if r.target == Jump && t.chain.None? then None else Some(t.(output := t.output + [r]))
    case DeleteOutput(r) => if r in t.output then Some(t.(output := RemoveFirst(t.output, r))) else None
  }

  predicate NoJump(rules: seq<Rule>) {
    forall r :: r in rules ==> r.target != Jump
  }

  predicate AllAccept(rules: seq<Rule>) {
    forall r :: r in rules ==> r.target == Accept
  }

  predicate SomeMatches(rules: seq<Rule>, p: Packet) {
    exists r :: r in rules && Matches(r.when, p)
  }

  lemma {:induction false} DecideAppend(a: seq<Rule>, b: seq<Rule>, chain: Option<seq<Rule>>, p: Packet)
    ensures DecideOutput(a + b, chain, p) ==
            if DecideOutput(a, chain, p).Some? then DecideOutput(a, chain, p) else DecideOutput(b, chain, p)
  {
    if a == [] {
      assert a + b == b;
    } else {
      assert (a + b)[1..] == a[1..] + b;
      DecideAppend(a[1..], b, chain, p);
    }
  }

  lemma {:induction false} DecideChainAppend(a: seq<Rule>, b: seq<Rule>, p: Packet)
    ensures DecideChain(a + b, p) == if DecideChain(a, p).Some? then DecideChain(a, p) else DecideChain(b, p)
  {
    if a == [] {
      assert a + b == b;
    } else {
      assert (a + b)[1..] == a[1..] + b;
      DecideChainAppend(a[1..], b, p);
    }
  }

  lemma {:induction false} DecideAccepts(accepts: seq<Rule>, rest: seq<Rule>, p: Packet)
    requires AllAccept(accepts)
    ensures DecideChain(accepts + rest, p) ==
            if SomeMatches(accepts, p) then Some(Accepted) else DecideChain(rest, p)
  {
    if accepts == [] {
      assert accepts + rest == rest;
    } else {
      assert (accepts + rest)[1..] == accepts[1..] + rest;
      DecideAccepts(accepts[1..], rest, p);
      assert forall r :: r in accepts <==> r == accepts[0] || r in accepts[1..];
      if Matches(accepts[0].when, p) { assert accepts[0] in accepts; }
    }
  }

  /** Without a jump in OUTPUT the program's chain is dead code. */
  lemma {:induction false} NoJumpNoChain(rules: seq<Rule>, c1: Option<seq<Rule>>, c2: Option<seq<Rule>>, p: Packet)
    requires NoJump(rules)
    ensures DecideOutput(rules, c1, p) == DecideOutput(rules, c2, p)
  {
    if rules != [] {
      NoJumpNoChain(rules[1..], c1, c2, p);
    }
  }

  /** Where every rule that matches rejects or passes on, the packet is rejected if one rejects. */
  lemma {:induction false} OnlyRejects(rules: seq<Rule>, chain: Option<seq<Rule>>, p: Packet)
    requires forall r :: r in rules && Matches(r.when, p) ==> r.target in {Reject, Pass}
    ensures DecideOutput(rules, chain, p) ==
            if exists r :: r in rules && Matches(r.when, p) && r.target == Reject then Some(Rejected) else None
  {
    if rules != [] {
      OnlyRejects(rules[1..], chain, p);
      assert forall r :: r in rules <==> r == rules[0] || r in rules[1..];
    }
  }

  /** Where OUTPUT decides nothing with one chain, only the jump can make it decide with another. */
  lemma {:induction false} OnlyJumpDecides(rules: seq<Rule>, c1: Option<seq<Rule>>, c2: Option<seq<Rule>>, p: Packet)
    requires DecideOutput(rules, c1, p) == None
    requires forall r :: r in rules && r.target == Jump ==> r == JUMP
    ensures DecideOutput(rules, c2, p) == if JUMP in rules && c2.Some? then DecideChain(c2.value, p) else None
  {
    if rules != [] {
      assert forall r :: r in rules <==> r == rules[0] || r in rules[1..];
      OnlyJumpDecides(rules[1..], c1, c2, p);
    }
  }

  /** Deleting a rule that the first part does not hold leaves that part alone. */
  lemma {:induction false} RemoveFirstSkips(a: seq<Rule>, b: seq<Rule>, r: Rule)
    requires r !in a
    ensures RemoveFirst(a + b, r) == a + RemoveFirst(b, r)
  {
    if a == [] {
      assert a + b == b && a + RemoveFirst(b, r) == RemoveFirst(b, r);
    } else {
      assert (a + b)[1..] == a[1..] + b && (a + b)[0] == a[0];
      RemoveFirstSkips(a[1..], b, r);
    }
  }

  lemma {:induction false} RemoveFirstTakesOne(rules: seq<Rule>, r: Rule)
    requires r in rules
    ensures multiset(RemoveFirst(rules, r)) == multiset(rules) - multiset{r}
  {
    assert rules == [rules[0]] + rules[1..];
    if rules[0] != r {
      RemoveFirstTakesOne(rules[1..], r);
    }
  }

  lemma {:induction false} RemoveFirstOther(rules: seq<Rule>, r: Rule, other: Rule)
    requires r != other
    ensures multiset(RemoveFirst(rules, r))[other] == multiset(rules)[other]
  {
    if rules != [] {
      assert rules == [rules[0]] + rules[1..];
      RemoveFirstOther(rules[1..], r, other);
    }
  }

  lemma {:induction false} RemoveFirstAbsent(rules: seq<Rule>, r: Rule)
    ensures r !in rules ==> RemoveFirst(rules, r) == rules
    ensures forall x :: x in RemoveFirst(rules, r) ==> x in rules
  {
    if rules != [] {
      assert rules == [rules[0]] + rules[1..];
      RemoveFirstAbsent(rules[1..], r);
    }
  }

  /** Wherever the jump stands, nothing gets past a chain that decides the packet. */
  lemma {:induction false} JumpSeals(rules: seq<Rule>, chain: seq<Rule>, p: Packet)
    requires JUMP in rules && DecideChain(chain, p).Some?
    ensures DecideOutput(rules, Some(chain), p).Some?
    ensures DecideOutput(rules, Some(chain), p) == Some(Accepted) ==>
              DecideChain(chain, p) == Some(Accepted)
              || exists r :: r in rules && r.target == Accept && Matches(r.when, p)
  {
    if Matches(rules[0].when, p) && rules[0].target !in {Jump, Pass} {
      assert rules[0] in rules;
    } else if rules[0] != JUMP && !(rules[0].target == Jump && Matches(rules[0].when, p)) {
      assert JUMP in rules[1..];
      JumpSeals(rules[1..], chain, p);
    }
  }
}
