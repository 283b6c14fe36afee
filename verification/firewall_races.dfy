/**
 * The commands of the kill switch, of the connection killer and of its delayed clean-up goroutines,
 * interleaved one iptables call at a time over one OUTPUT chain.
 */
module FirewallRaces {
  import opened Net
  import opened Firewall
  import opened KillSwitch

  /** The kill-switch mutex admits one activation or deactivation, which runs `todo` and then sets the flag. */
  datatype Control = Idle | Working(todo: seq<Command>, target: bool)

  /** `timers` are the REJECT rules whose removal is still to come; `clean` until a command fails for no reason. */
  datatype State = State(tables: Tables, control: Control, active: bool, timers: seq<Rule>, clean: bool)

  datatype Step =
    | Activate(server: Option<Addr>, gateway: Addr)
    | Deactivate
    | Advance(fails: bool)
    | KillStale(host: Addr, port: Option<nat>, fails: bool)
    | TimerFires(which: nat, fails: bool)

  function SetupCommands(server: Option<Addr>, gateway: Addr): seq<Command> {
    var exceptions := Exceptions(server, gateway);
    [NewChain, FlushChain, AppendChain(ALLOW_LOOPBACK)]
    + seq(|exceptions|, i requires 0 <= i < |exceptions| => AppendChain(exceptions[i]))
    + [AppendChain(BLOCK), AppendOutput(JUMP)]
  }

  const CLEANUP_COMMANDS := [DeleteOutput(JUMP), FlushChain, DeleteChain]

  /** The setup returns early when one of these fails. */
  predicate Critical(c: Command) {
    c in {AppendChain(ALLOW_LOOPBACK), AppendChain(BLOCK), AppendOutput(JUMP)}
  }

  function Attempt(s: State, c: Command, fails: bool): (r: (State, bool)) {
    var ran := if fails then None else Run(s.tables, c);
    if ran.Some? then (s.(tables := ran.value), true) else (s.(clean := s.clean && !fails), false)
  }

  function Next(s: State, step: Step): State {
    match step
    case Activate(server, gateway) =>
      if s.control.Idle? && !s.active then s.(control := Working(SetupCommands(server, gateway), true)) else s
    case Deactivate =>
      if s.control.Idle? && s.active then s.(control := Working(CLEANUP_COMMANDS, false)) else s
    case Advance(fails) =>
      if s.control.Idle? then s
      else if s.control.todo == [] then s.(control := Idle, active := s.control.target)
      else
        var c := s.control.todo[0];
        var (s', ok) := Attempt(s, c, fails);
        s'.(control := s.control.(todo := if !ok && Critical(c) then [] else s.control.todo[1..]))
    case KillStale(host, port, fails) =>
      var reject := Rule(TcpTo(host, port), Reject);
      var (s', ok) := Attempt(s, AppendOutput(reject), fails);
      if ok then s'.(timers := s.timers + [reject]) else s'
    case TimerFires(which, fails) =>
      if which >= |s.timers| then s
      else
        var (s', ok) := Attempt(s, DeleteOutput(s.timers[which]), fails);
        s'.(timers := s.timers[..which] + s.timers[which + 1..])
  }

  function RunSteps(s: State, steps: seq<Step>): State {
    if steps == [] then s else Next(RunSteps(s, steps[..|steps| - 1]), steps[|steps| - 1])
  }

  predicate ProgramRule(r: Rule) {
    r == JUMP || (r.when.TcpTo? && r.target == Reject)
  }

  predicate Fresh(o: seq<Rule>, s: State) {
    s.tables.output == o && s.control.Idle? && !s.active && s.timers == [] && s.clean
    && forall r :: r in o ==> !ProgramRule(r)
  }

  /** Whether the jump stands in OUTPUT, read off the controller. */
  predicate Jumped(s: State) {
    match s.control
    case Idle => s.active
    case Working(todo, target) =>
      if target then AppendOutput(JUMP) !in todo else DeleteOutput(JUMP) in todo
  }

  predicate InSetup(s: State, server: Option<Addr>, gateway: Addr, k: nat) {
    var all := SetupCommands(server, gateway);
    k <= |all| && s.control == Working(all[k..], true) && (k > 0 ==> s.tables.chain.Some?)
  }

  predicate InCleanup(s: State) {
    && s.control.Working? && !s.control.target
    && s.control.todo in {CLEANUP_COMMANDS, [FlushChain, DeleteChain], [DeleteChain], []}
  }

  ghost predicate OnSchedule(s: State) {
    s.control.Idle? || InCleanup(s) || exists server, gateway, k :: InSetup(s, server, gateway, k)
  }

  /** Behind the rules found at the start stand the pending REJECTs and the jump, each as often as due. */
  ghost predicate Balanced(o: seq<Rule>, s: State) {
    o <= s.tables.output
    && multiset(s.tables.output[|o|..]) == multiset(s.timers) + if Jumped(s) then multiset{JUMP} else multiset{}
  }

  predicate OwnRulesOnly(o: seq<Rule>, s: State) {
    && (forall r :: r in o ==> !ProgramRule(r))
    && (forall r :: r in s.timers ==> ProgramRule(r) && r.target == Reject)
    && (s.control.Working? ==> forall c :: c in s.control.todo && c.DeleteOutput? ==> c.rule == JUMP)
    && (s.control.Working? ==> forall c :: c in s.control.todo && c.AppendOutput? ==> c.rule == JUMP)
    && o <= s.tables.output
  }

  ghost predicate Inv(o: seq<Rule>, s: State) {
    OwnRulesOnly(o, s) && (s.clean ==> OnSchedule(s) && Balanced(o, s))
  }

  lemma AppendBeyond(o: seq<Rule>, output: seq<Rule>, r: Rule)
    requires o <= output
    ensures o <= output + [r]
    ensures multiset((output + [r])[|o|..]) == multiset(output[|o|..]) + multiset{r}
  {
    assert (output + [r])[|o|..] == output[|o|..] + [r];
  }

  lemma DeleteBeyond(o: seq<Rule>, output: seq<Rule>, r: Rule)
    requires o <= output && r !in o && r in output
    ensures o <= RemoveFirst(output, r)
    ensures multiset(RemoveFirst(output, r)[|o|..]) == multiset(output[|o|..]) - multiset{r}
    ensures r in output[|o|..]
  {
    var tail := output[|o|..];
    assert output == o + tail;
    RemoveFirstSkips(o, tail, r);
    RemoveFirstTakesOne(tail, r);
    assert (o + RemoveFirst(tail, r))[|o|..] == RemoveFirst(tail, r);
  }

  lemma SetupShape(server: Option<Addr>, gateway: Addr, k: nat)
    requires k < |SetupCommands(server, gateway)|
    ensures var all := SetupCommands(server, gateway);
            && (k == 0 <==> all[k] == NewChain)
            && (k == |all| - 1 <==> all[k] == AppendOutput(JUMP))
            && (all[k] in {NewChain, FlushChain, AppendOutput(JUMP)} || all[k].AppendChain?)
  {
    var all := SetupCommands(server, gateway);
    if 3 <= k < |all| - 2 {
      assert all[k] == AppendChain(Exceptions(server, gateway)[k - 3]);
    }
  }

  lemma SetupCommandsOnly(server: Option<Addr>, gateway: Addr)
    ensures forall c :: c in SetupCommands(server, gateway) ==>
              !c.DeleteOutput? && (c.AppendOutput? ==> c == AppendOutput(JUMP))
  {
    var all := SetupCommands(server, gateway);
    forall c | c in all
      ensures !c.DeleteOutput? && (c.AppendOutput? ==> c == AppendOutput(JUMP))
    {
      var k :| 0 <= k < |all| && all[k] == c;
      SetupShape(server, gateway, k);
    }
  }

  lemma ActivateKeeps(o: seq<Rule>, s: State, server: Option<Addr>, gateway: Addr)
    requires Inv(o, s)
    ensures Inv(o, Next(s, Activate(server, gateway)))
  {
    SetupCommandsOnly(server, gateway);
    var s' := Next(s, Activate(server, gateway));
    if s' != s {
      var all := SetupCommands(server, gateway);
      assert all[0..] == all;
      assert InSetup(s', server, gateway, 0);
      SetupShape(server, gateway, |all| - 1);
      assert AppendOutput(JUMP) in all;
    }
  }

  lemma DeactivateKeeps(o: seq<Rule>, s: State)
    requires Inv(o, s)
    ensures Inv(o, Next(s, Deactivate))
  {
    var s' := Next(s, Deactivate);
    assert s' != s ==> InCleanup(s');
  }

  lemma KillStaleKeeps(o: seq<Rule>, s: State, host: Addr, port: Option<nat>, fails: bool)
    requires Inv(o, s)
    ensures Inv(o, Next(s, KillStale(host, port, fails)))
  {
    var s' := Next(s, KillStale(host, port, fails));
    AppendBeyond(o, s.tables.output, Rule(TcpTo(host, port), Reject));
    ScheduleUnmoved(s, s');
  }

  /** The schedule only reads the controller and whether the chain exists. */
  lemma ScheduleUnmoved(s: State, s': State)
    requires s'.control == s.control && s'.tables.chain == s.tables.chain
    ensures OnSchedule(s) ==> OnSchedule(s')
  {
    if server, gateway, k :| InSetup(s, server, gateway, k) {
      assert InSetup(s', server, gateway, k);
    }
  }

  lemma TimerOwn(o: seq<Rule>, s: State, which: nat, fails: bool)
    requires OwnRulesOnly(o, s)
    ensures OwnRulesOnly(o, Next(s, TimerFires(which, fails)))
  {
    if which < |s.timers| {
      var r := s.timers[which];
      assert r in s.timers;
      if r in s.tables.output {
        DeleteBeyond(o, s.tables.output, r);
      }
    }
  }

  lemma TimersLessOne(timers: seq<Rule>, which: nat)
    requires which < |timers|
    ensures multiset(timers[..which] + timers[which + 1..]) == multiset(timers) - multiset{timers[which]}
    ensures timers[which] in multiset(timers)
  {
    assert timers == timers[..which] + [timers[which]] + timers[which + 1..];
  }

  lemma TakeFromSum(a: multiset<Rule>, b: multiset<Rule>, r: Rule)
    requires r in a
    ensures (a + b) - multiset{r} == (a - multiset{r}) + b
  {
  }

  lemma TimerStep(s: State, which: nat)
    requires which < |s.timers| && s.timers[which] in s.tables.output
    ensures var s' := Next(s, TimerFires(which, false));
            && s'.control == s.control && s'.active == s.active && s'.clean == s.clean
            && s'.tables == s.tables.(output := RemoveFirst(s.tables.output, s.timers[which]))
            && s'.timers == s.timers[..which] + s.timers[which + 1..]
  {
  }

  lemma TimerBalanced(o: seq<Rule>, s: State, which: nat)
    requires OwnRulesOnly(o, s) && Balanced(o, s) && which < |s.timers|
    ensures Balanced(o, Next(s, TimerFires(which, false)))
  {
    var r := s.timers[which];
    TimersLessOne(s.timers, which);
    TakeFromSum(multiset(s.timers), if Jumped(s) then multiset{JUMP} else multiset{}, r);
    assert r in s.timers;
    assert r in multiset(s.tables.output[|o|..]);
    assert r in s.tables.output;
    DeleteBeyond(o, s.tables.output, r);
    TimerStep(s, which);
  }

  lemma TimerKeeps(o: seq<Rule>, s: State, which: nat, fails: bool)
    requires Inv(o, s)
    ensures Inv(o, Next(s, TimerFires(which, fails)))
  {
    TimerOwn(o, s, which, fails);
    if which < |s.timers| && s.clean && !fails {
      TimerClean(o, s, which);
    }
  }

  lemma TimerClean(o: seq<Rule>, s: State, which: nat)
    requires Inv(o, s) && s.clean && which < |s.timers|
    ensures var s' := Next(s, TimerFires(which, false)); OnSchedule(s') && Balanced(o, s')
  {
    TimerBalanced(o, s, which);
    var r := s.timers[which];
    assert r in multiset(s.timers);
    assert r in multiset(s.tables.output[|o|..]);
    TimerStep(s, which);
    ScheduleUnmoved(s, Next(s, TimerFires(which, false)));
  }

  lemma SetupTail(server: Option<Addr>, gateway: Addr, k: nat)
    requires k <= |SetupCommands(server, gateway)|
    ensures var all := SetupCommands(server, gateway); AppendOutput(JUMP) in all[k..] <==> k < |all|
  {
    var all := SetupCommands(server, gateway);
    if k < |all| {
      assert all[k..][|all| - 1 - k] == AppendOutput(JUMP);
    }
  }

  /** One command of the setup: it never aborts, and only the last one touches OUTPUT. */
  lemma SetupStep(s: State, c: Command, rest: seq<Command>)
    requires s.control == Working([c] + rest, true)
    requires c == NewChain || (s.tables.chain.Some? && (c.FlushChain? || c.AppendChain? || c == AppendOutput(JUMP)))
    ensures var s' := Next(s, Advance(false));
            && s'.control == Working(rest, true) && s'.tables.chain.Some?
            && s'.timers == s.timers && s'.clean == s.clean && s'.active == s.active
            && s'.tables.output == s.tables.output + if c == AppendOutput(JUMP) then [JUMP] else []
  {
    assert ([c] + rest)[1..] == rest;
  }

  lemma CleanupStep(s: State, rest: seq<Command>)
    requires s.control == Working([DeleteOutput(JUMP)] + rest, false) && JUMP in s.tables.output
    ensures var s' := Next(s, Advance(false));
            && s'.control == Working(rest, false)
            && s'.timers == s.timers && s'.clean == s.clean && s'.active == s.active
            && s'.tables.output == RemoveFirst(s.tables.output, JUMP)
  {
    assert ([DeleteOutput(JUMP)] + rest)[1..] == rest;
  }

  lemma SetupScheduled(s: State, server: Option<Addr>, gateway: Addr, k: nat)
    requires InSetup(s, server, gateway, k) && s.control.todo != []
    ensures OnSchedule(Next(s, Advance(false)))
  {
    var all := SetupCommands(server, gateway);
    SetupShape(server, gateway, k);
    assert s.control.todo == [all[k]] + all[k + 1..];
    SetupStep(s, all[k], all[k + 1..]);
    assert InSetup(Next(s, Advance(false)), server, gateway, k + 1);
  }

  lemma SetupAdvances(o: seq<Rule>, s: State, server: Option<Addr>, gateway: Addr, k: nat)
    requires s.clean && Balanced(o, s)
    requires InSetup(s, server, gateway, k) && s.control.todo != []
    ensures var s' := Next(s, Advance(false)); OnSchedule(s') && Balanced(o, s')
  {
    var all := SetupCommands(server, gateway);
    var c, rest := all[k], all[k + 1..];
    SetupShape(server, gateway, k);
    SetupTail(server, gateway, k);
    SetupTail(server, gateway, k + 1);
    assert s.control.todo == [c] + rest;
    SetupStep(s, c, rest);
    var s' := Next(s, Advance(false));
    SetupScheduled(s, server, gateway, k);
    if c == AppendOutput(JUMP) {
      AppendBeyond(o, s.tables.output, JUMP);
    } else {
      assert s'.tables.output == s.tables.output;
    }
  }

  lemma CleanupAdvances(o: seq<Rule>, s: State)
    requires OwnRulesOnly(o, s) && s.clean && Balanced(o, s)
    requires InCleanup(s) && s.control.todo != []
    ensures var s' := Next(s, Advance(false)); OnSchedule(s') && Balanced(o, s')
  {
    var s' := Next(s, Advance(false));
    if s.control.todo == CLEANUP_COMMANDS {
      CleanupUnhooks(o, s);
    } else {
      var rest := if s.control.todo == [FlushChain, DeleteChain] then [DeleteChain] else [];
      assert s.control.todo[1..] == rest;
      assert s'.control == Working(rest, false) && InCleanup(s');
      assert s'.tables.output == s.tables.output && s'.timers == s.timers;
      assert !Jumped(s) && !Jumped(s');
    }
  }

  lemma CleanupUnhooks(o: seq<Rule>, s: State)
    requires OwnRulesOnly(o, s) && s.clean && Balanced(o, s)
    requires s.control == Working(CLEANUP_COMMANDS, false)
    ensures var s' := Next(s, Advance(false)); InCleanup(s') && Balanced(o, s')
  {
    var s' := Next(s, Advance(false));
    var rest := [FlushChain, DeleteChain];
    var tail := multiset(s.tables.output[|o|..]);
    assert JUMP in tail;
    assert JUMP in s.tables.output;
    assert JUMP !in o;
    DeleteBeyond(o, s.tables.output, JUMP);
    assert CLEANUP_COMMANDS == [DeleteOutput(JUMP)] + rest;
    CleanupStep(s, rest);
  }

  /** Whatever fails, a command of the program leaves the rules it found alone. */
  lemma AdvanceKeepsPrefix(o: seq<Rule>, s: State, fails: bool)
    requires Inv(o, s)
    ensures OwnRulesOnly(o, Next(s, Advance(fails)))
  {
    if s.control.Working? && s.control.todo != [] {
      var c := s.control.todo[0];
      if c.DeleteOutput? && JUMP in s.tables.output {
        DeleteBeyond(o, s.tables.output, JUMP);
      }
    }
  }

  lemma AdvanceKeeps(o: seq<Rule>, s: State, fails: bool)
    requires Inv(o, s)
    ensures Inv(o, Next(s, Advance(fails)))
  {
    AdvanceKeepsPrefix(o, s, fails);
    if s.clean && s.control.Working? {
      if s.control.todo == [] {
      } else if !fails {
        if server, gateway, k :| InSetup(s, server, gateway, k) {
          SetupAdvances(o, s, server, gateway, k);
        } else {
          CleanupAdvances(o, s);
        }
      }
    }
  }

  lemma NextKeeps(o: seq<Rule>, s: State, step: Step)
    requires Inv(o, s)
    ensures Inv(o, Next(s, step))
  {
    match step
    case Activate(server, gateway) => ActivateKeeps(o, s, server, gateway);
    case Deactivate => DeactivateKeeps(o, s);
    case Advance(fails) => AdvanceKeeps(o, s, fails);
    case KillStale(host, port, fails) => KillStaleKeeps(o, s, host, port, fails);
    case TimerFires(which, fails) => TimerKeeps(o, s, which, fails);
  }

  lemma {:induction false} RunKeeps(o: seq<Rule>, s: State, steps: seq<Step>)
    requires Fresh(o, s)
    ensures Inv(o, RunSteps(s, steps))
  {
    if steps == [] {
      assert s.tables.output[|o|..] == [];
    } else {
      RunKeeps(o, s, steps[..|steps| - 1]);
      NextKeeps(o, RunSteps(s, steps[..|steps| - 1]), steps[|steps| - 1]);
    }
  }

  /**
   * In every interleaving the rules OUTPUT held at the start stay its prefix, whatever fails. When no
   * command failed spuriously and no timer or switch is under way, OUTPUT is those rules plus the jump
   * exactly when the switch is active.
   */
  lemma Conservation(o: seq<Rule>, s: State, steps: seq<Step>)
    requires Fresh(o, s)
    ensures var end := RunSteps(s, steps);
            && o <= end.tables.output
            && (end.clean && end.control.Idle? && end.timers == [] ==>
                  end.tables.output == o + if end.active then [JUMP] else [])
  {
    RunKeeps(o, s, steps);
    var end := RunSteps(s, steps);
    if end.clean && end.control.Idle? && end.timers == [] {
      var rest := end.tables.output[|o|..];
      assert end.tables.output == o + rest;
      assert multiset(rest) == if end.active then multiset{JUMP} else multiset{};
      assert |rest| == |multiset(rest)|;
      if end.active {
        assert rest[0] in multiset(rest);
        assert rest == [JUMP];
      }
    }
  }

  /** A failing command ends an activation or deactivation early exactly if it is one of three. */
  lemma FailureAborts(s: State, c: Command, rest: seq<Command>)
    requires s.control.Working? && s.control.todo == [c] + rest && rest != []
    ensures var t := Next(s, Advance(true));
            && t.tables == s.tables && !t.clean && t.control.Working? && t.control.target == s.control.target
            && (t.control.todo == [] <==>
                  c == AppendChain(Rule(OutLoopback, Accept)) || c == AppendChain(Rule(Any, Drop))
                  || c == AppendOutput(Rule(Any, Jump)))
            && (t.control.todo != [] ==> t.control.todo == rest)
  {
    assert ([c] + rest)[1..] == rest;
  }

  // ----- an undisturbed activation and deactivation -----

  /** The controller's next n commands, none failing. */
  function Advanced(s: State, n: nat): State {
    if n == 0 then s else Next(Advanced(s, n - 1), Advance(false))
  }

  /** The rules the set-up appends, in order. */
  lemma SetupAppends(server: Option<Addr>, gateway: Addr, k: nat)
    requires 2 <= k < |SetupCommands(server, gateway)| - 1
    ensures var rules := Sealed(Exceptions(server, gateway));
            && |SetupCommands(server, gateway)| == |rules| + 3
            && SetupCommands(server, gateway)[k] == AppendChain(rules[k - 2])
  {
  }

  /** How far an activation has come, with that much of the chain filled. */
  predicate Stage(s: State, t: State, todo: seq<Command>, rules: seq<Rule>) {
    && t.control == Working(todo, true) && t.tables == Tables(s.tables.output, Some(rules))
    && t.timers == s.timers && t.clean == s.clean && !t.active
  }

  lemma AppendStage(s: State, t: State, r: Rule, todo: seq<Command>, rules: seq<Rule>)
    requires Stage(s, t, [AppendChain(r)] + todo, rules)
    ensures Stage(s, Next(t, Advance(false)), todo, rules + [r])
  {
    assert ([AppendChain(r)] + todo)[1..] == todo;
  }

  lemma FirstStages(s: State, todo: seq<Command>)
    requires s.control == Working([NewChain, FlushChain] + todo, true) && !s.active
    ensures Stage(s, Next(Next(s, Advance(false)), Advance(false)), todo, [])
  {
    assert ([NewChain, FlushChain] + todo)[1..] == [FlushChain] + todo;
    assert ([FlushChain] + todo)[1..] == todo;
  }

  lemma {:induction false} ActivationStage(s: State, server: Option<Addr>, gateway: Addr, k: nat)
    requires s.control.Idle? && !s.active && 2 <= k < |SetupCommands(server, gateway)|
    ensures |SetupCommands(server, gateway)| == |Sealed(Exceptions(server, gateway))| + 3
    ensures Stage(s, Advanced(Next(s, Activate(server, gateway)), k), SetupCommands(server, gateway)[k..],
                  Sealed(Exceptions(server, gateway))[..k - 2])
  {
    var all := SetupCommands(server, gateway);
    var rules := Sealed(Exceptions(server, gateway));
    var start := Next(s, Activate(server, gateway));
    if k == 2 {
      assert all == [NewChain, FlushChain] + all[2..];
      FirstStages(start, all[2..]);
      TwoSteps(start);
      assert rules[..0] == [];
    } else {
      ActivationStage(s, server, gateway, k - 1);
      SetupAppends(server, gateway, k - 1);
      assert all[k - 1..] == [AppendChain(rules[k - 3])] + all[k..];
      assert rules[..k - 2] == rules[..k - 3] + [rules[k - 3]];
      AppendStage(s, Advanced(start, k - 1), rules[k - 3], all[k..], rules[..k - 3]);
    }
  }

  lemma TwoSteps(s: State)
    ensures Advanced(s, 2) == Next(Next(s, Advance(false)), Advance(false))
  {
    assert Advanced(s, 1) == Next(Advanced(s, 0), Advance(false));
  }

  /** An activation whose commands all work ends active, with the complete chain and the jump behind OUTPUT. */
  lemma ActivationCompletes(s: State, server: Option<Addr>, gateway: Addr)
    requires s.control.Idle? && !s.active
    ensures var t := Advanced(Next(s, Activate(server, gateway)), |SetupCommands(server, gateway)| + 1);
            && t.control.Idle? && t.active && t.timers == s.timers && t.clean == s.clean
            && t.tables == Tables(s.tables.output + [JUMP], Some(FullChain(server, gateway)))
  {
    var all := SetupCommands(server, gateway);
    var rules := Sealed(Exceptions(server, gateway));
    var k := |all| - 1;
    ActivationStage(s, server, gateway, k);
    var start := Next(s, Activate(server, gateway));
    var last := Advanced(start, k);
    assert all[k..] == [AppendOutput(JUMP)] && rules[..k - 2] == rules;
    var done := Advanced(start, k + 1);
    assert done == Next(last, Advance(false));
    assert all[k..][1..] == [];
    assert done.control == Working([], true);
    assert Advanced(start, k + 2) == Next(done, Advance(false));
  }

  /** A deactivation whose commands all work takes the one jump and the chain away again. */
  lemma DeactivationCompletes(s: State, before: seq<Rule>, after: seq<Rule>)
    requires s.control.Idle? && s.active && s.tables.chain.Some?
    requires s.tables.output == before + [JUMP] + after && NoJump(before) && NoJump(after)
    ensures var t := Advanced(Next(s, Deactivate), 4);
            && t.control.Idle? && !t.active && t.timers == s.timers && t.clean == s.clean
            && t.tables == Tables(before + after, None)
  {
    var s0 := Next(s, Deactivate);
    var s1 := Next(s0, Advance(false));
    var s2 := Next(s1, Advance(false));
    var s3 := Next(s2, Advance(false));
    FourSteps(s0);
    JumpOff(before, after);
    assert CLEANUP_COMMANDS[1..] == [FlushChain, DeleteChain] && [FlushChain, DeleteChain][1..] == [DeleteChain];
    assert s1.control == Working([FlushChain, DeleteChain], false) && s1.tables.output == before + after;
    assert s2.control == Working([DeleteChain], false) && s2.tables == Tables(before + after, Some([]));
    assert [DeleteChain][1..] == [];
    assert s3.control == Working([], false) && s3.tables == Tables(before + after, None);
  }

  lemma FourSteps(s: State)
    ensures Advanced(s, 4) ==
            Next(Next(Next(Next(s, Advance(false)), Advance(false)), Advance(false)), Advance(false))
  {
    assert Advanced(s, 1) == Next(Advanced(s, 0), Advance(false));
    assert Advanced(s, 2) == Next(Advanced(s, 1), Advance(false));
    assert Advanced(s, 3) == Next(Advanced(s, 2), Advance(false));
  }

  lemma JumpOff(before: seq<Rule>, after: seq<Rule>)
    requires NoJump(before) && NoJump(after)
    ensures var output := before + [JUMP] + after;
            JUMP in output && RemoveFirst(output, JUMP) == before + after && NoJump(before + after)
  {
    assert before + [JUMP] + after == before + ([JUMP] + after);
    RemoveFirstSkips(before, [JUMP] + after, JUMP);
    assert ([JUMP] + after)[1..] == after;
    assert (before + [JUMP] + after)[|before|] == JUMP;
  }
}
