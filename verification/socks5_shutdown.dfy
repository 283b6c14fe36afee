/** Start, the accept loop, the connection handlers and Stop of the SOCKS5 server, interleaved step by step. */
module Socks5Shutdown {
  /** Start: net.Listen, then wg.Add(1), then the go statement. */
  datatype Start = NotStarted | Listening | Counted | Started

  datatype Loop = Unborn | Checking | Accepting | Holding(conn: nat) | Adding(conn: nat) | Leaving | Gone

  /** A handler serves, has closed its connection, or has also called wg.Done. */
  datatype Handler = Serving | Closed | Finished

  datatype Stop = NotCalled | Cancelled | ListenerClosed | Returned

  /** `closed`: Stop closed the listener it found; `late` counts connections accepted after the cancel. */
  datatype State = State(
    wg: int, start: Start, loop: Loop, handlers: map<nat, Handler>, stop: Stop, closed: bool, next: nat, late: nat)

  datatype Accepted = Conn | Timeout | Error

  datatype Step =
    | StartListen
    | StartAdd
    | StartSpawn
    | LoopCheck
    | LoopAccept(result: Accepted)
    | LoopAdd
    | LoopSpawn
    | LoopDone
    | HandlerClose(h: nat)
    | HandlerDone(h: nat)
    | StopCancel
    | StopClose
    | StopWait

  const INITIAL := State(0, NotStarted, Unborn, map[], NotCalled, false, 0, 0)

  predicate Done(s: State) {
    s.stop != NotCalled
  }

  predicate Open(s: State) {
    s.start != NotStarted && !s.closed
  }

  predicate Enabled(s: State, step: Step) {
    match step
    case StartListen => s.start == NotStarted
    case StartAdd => s.start == Listening
    case StartSpawn => s.start == Counted
    case LoopCheck => s.loop == Checking
    case LoopAccept(result) => s.loop == Accepting && (result == Conn ==> Open(s))
    case LoopAdd => s.loop.Holding?
    case LoopSpawn => s.loop.Adding?
    case LoopDone => s.loop == Leaving
    case HandlerClose(h) => h in s.handlers && s.handlers[h] == Serving
    case HandlerDone(h) => h in s.handlers && s.handlers[h] == Closed
    case StopCancel => s.stop == NotCalled
    case StopClose => s.stop == Cancelled
    case StopWait => s.stop == ListenerClosed && s.wg == 0
  }

  function Next(s: State, step: Step): State {
    if !Enabled(s, step) then s
    else
      match step
      case StartListen => s.(start := Listening)
      case StartAdd => s.(start := Counted, wg := s.wg + 1)
      case StartSpawn => s.(start := Started, loop := Checking)
      case LoopCheck => s.(loop := if Done(s) then Leaving else Accepting)
      case LoopAccept(Conn) =>
        s.(loop := Holding(s.next), next := s.next + 1, late := s.late + if Done(s) then 1 else 0)
      case LoopAccept(Timeout) => s.(loop := Checking)
      case LoopAccept(Error) => s.(loop := if Done(s) then Leaving else Checking)
      case LoopAdd => s.(loop := Adding(s.loop.conn), wg := s.wg + 1)
      case LoopSpawn => s.(loop := Checking, handlers := s.handlers[s.loop.conn := Serving])
      case LoopDone => s.(loop := Gone, wg := s.wg - 1)
      case HandlerClose(h) => s.(handlers := s.handlers[h := Closed])
      case HandlerDone(h) => s.(handlers := s.handlers[h := Finished], wg := s.wg - 1)
      case StopCancel => s.(stop := Cancelled)
      case StopClose => s.(stop := ListenerClosed, closed := s.start != NotStarted)
      case StopWait => s.(stop := Returned)
  }

  function RunSteps(steps: seq<Step>): State {
    if steps == [] then INITIAL else Next(RunSteps(steps[..|steps| - 1]), steps[|steps| - 1])
  }

  predicate LoopLive(s: State) {
    s.start == Counted || s.loop !in {Unborn, Gone}
  }

  function LiveIn(handlers: map<nat, Handler>): set<nat> {
    set h | h in handlers && handlers[h] != Finished
  }

  function Live(s: State): set<nat> {
    LiveIn(s.handlers)
  }

  predicate LoopBusy(s: State) {
    s.loop == Accepting || s.loop.Holding? || s.loop.Adding?
  }

  predicate Inv(s: State) {
    && (s.loop == Unborn <==> s.start != Started)
    && s.wg == (if LoopLive(s) then 1 else 0) + |Live(s)| + (if s.loop.Adding? then 1 else 0)
    && (forall h :: h in s.handlers ==> h < s.next)
    && (s.loop.Holding? || s.loop.Adding? ==> s.loop.conn < s.next && s.loop.conn !in s.handlers)
    && (forall h :: 0 <= h < s.next ==> h in s.handlers || (LoopBusy(s) && s.loop != Accepting && s.loop.conn == h))
    && (!Done(s) || s.loop == Accepting ==> s.late == 0) && s.late <= 1
    && (s.stop == Returned ==> !LoopBusy(s) && Live(s) == {})
  }

  lemma LiveChanges(m: map<nat, Handler>, h: nat, v: Handler)
    ensures LiveIn(m[h := v]) == LiveIn(m) - {h} + if v == Finished then {} else {h}
  {
  }

  lemma HandlerStepKeeps(s: State, h: nat, v: Handler)
    requires Inv(s) && h in s.handlers
    requires (v == Closed && s.handlers[h] == Serving) || (v == Finished && s.handlers[h] == Closed)
    ensures Inv(s.(handlers := s.handlers[h := v], wg := s.wg - if v == Finished then 1 else 0))
  {
    LiveChanges(s.handlers, h, v);
    assert h in Live(s);
    assert LiveIn(s.handlers[h := v]) == if v == Finished then Live(s) - {h} else Live(s);
  }

  lemma SpawnKeeps(s: State)
    requires Inv(s) && s.loop.Adding?
    ensures Inv(Next(s, LoopSpawn))
  {
    LiveChanges(s.handlers, s.loop.conn, Serving);
    assert s.loop.conn !in Live(s);
    assert LiveIn(s.handlers[s.loop.conn := Serving]) == Live(s) + {s.loop.conn};
  }

  lemma WaitKeeps(s: State)
    requires Inv(s) && Enabled(s, StopWait)
    ensures Inv(Next(s, StopWait))
  {
    assert Live(Next(s, StopWait)) == Live(s);
    assert |Live(s)| == 0;
  }

  lemma AcceptKeeps(s: State, result: Accepted)
    requires Inv(s) && Enabled(s, LoopAccept(result))
    ensures Inv(Next(s, LoopAccept(result)))
  {
    assert Live(Next(s, LoopAccept(result))) == Live(s);
  }

  lemma StartKeeps(s: State, step: Step)
    requires Inv(s) && Enabled(s, step) && step in {StartListen, StartAdd, StartSpawn}
    ensures Inv(Next(s, step))
  {
    assert Live(Next(s, step)) == Live(s);
  }

  lemma LoopKeeps(s: State, step: Step)
    requires Inv(s) && Enabled(s, step) && step in {LoopCheck, LoopAdd, LoopDone}
    ensures Inv(Next(s, step))
  {
    assert Live(Next(s, step)) == Live(s);
  }

  lemma StopKeeps(s: State, step: Step)
    requires Inv(s) && Enabled(s, step) && step in {StopCancel, StopClose}
    ensures Inv(Next(s, step))
  {
    assert Live(Next(s, step)) == Live(s);
  }

  lemma StepKeeps(s: State, step: Step)
    requires Inv(s)
    ensures Inv(Next(s, step))
  {
    if Enabled(s, step) {
      match step
      case LoopAccept(result) => AcceptKeeps(s, result);
      case LoopSpawn => SpawnKeeps(s);
      case HandlerClose(h) => HandlerStepKeeps(s, h, Closed);
      case HandlerDone(h) => HandlerStepKeeps(s, h, Finished);
      case StopWait => WaitKeeps(s);
      case StartListen => StartKeeps(s, step);
      case StartAdd => StartKeeps(s, step);
      case StartSpawn => StartKeeps(s, step);
      case LoopCheck => LoopKeeps(s, step);
      case LoopAdd => LoopKeeps(s, step);
      case LoopDone => LoopKeeps(s, step);
      case StopCancel => StopKeeps(s, step);
      case StopClose => StopKeeps(s, step);
    }
  }

  lemma {:induction false} RunKeeps(steps: seq<Step>)
    ensures Inv(RunSteps(steps))
  {
    if steps == [] {
      assert Live(INITIAL) == {};
    } else {
      RunKeeps(steps[..|steps| - 1]);
      StepKeeps(RunSteps(steps[..|steps| - 1]), steps[|steps| - 1]);
    }
  }

  /**
   * In every reachable state the WaitGroup counts the live accept loop, the live handlers and the one
   * about to start. At most one connection is accepted after Stop has cancelled. When Stop has
   * returned, every connection ever accepted is closed and its handler gone.
   */
  lemma ShutdownSafe(steps: seq<Step>)
    ensures var s := RunSteps(steps);
            && s.wg == (if LoopLive(s) then 1 else 0) + |Live(s)| + (if s.loop.Adding? then 1 else 0)
            && s.late <= 1
            && (s.stop == Returned ==>
                  forall h :: 0 <= h < s.next ==> h in s.handlers && s.handlers[h] == Finished)
  {
    RunKeeps(steps);
    var s := RunSteps(steps);
    if s.stop == Returned {
      forall h | 0 <= h < s.next
        ensures h in s.handlers && s.handlers[h] == Finished
      {
        assert h in s.handlers;
        assert h !in Live(s);
      }
    }
  }

  lemma StoppedStays(s: State, step: Step)
    requires Inv(s) && s.stop == Returned
    ensures var s' := Next(s, step); s'.stop == Returned && s'.handlers == s.handlers && s'.next == s.next
  {
    if step.HandlerClose? || step.HandlerDone? {
      assert step.h in s.handlers ==> step.h !in Live(s);
    }
  }

  /** Once Stop has returned, no continuation accepts a connection or starts a handler. */
  lemma {:induction false} NothingAfterStop(steps: seq<Step>, more: seq<Step>)
    requires RunSteps(steps).stop == Returned
    ensures var before, after := RunSteps(steps), RunSteps(steps + more);
            after.stop == Returned && after.handlers == before.handlers && after.next == before.next
  {
    if more == [] {
      assert steps + more == steps;
    } else {
      var k := |more| - 1;
      NothingAfterStop(steps, more[..k]);
      RunKeeps(steps + more[..k]);
      StoppedStays(RunSteps(steps + more[..k]), more[k]);
      var all := steps + more;
      assert all[..|all| - 1] == steps + more[..k] && all[|all| - 1] == more[k];
    }
  }

  function LoopWork(loop: Loop): nat {
    match loop
    case Unborn => 10
    case Accepting => 7
    case Holding(_) => 6
    case Adding(_) => 5
    case Checking => 2
    case Leaving => 1
    case Gone => 0
  }

  function HandlerWork(handlers: map<nat, Handler>, n: nat): nat {
    if n == 0 then 0
    else
      HandlerWork(handlers, n - 1)
      + if n - 1 in handlers && handlers[n - 1] == Serving then 2
        else if n - 1 in handlers && handlers[n - 1] == Closed then 1
        else 0
  }

  /** An upper bound on the steps that are still to be made once Stop has been called. */
  function Work(s: State): nat {
    var starting := match s.start case NotStarted => 3 case Listening => 2 case Counted => 1 case Started => 0;
    var stopping := match s.stop case NotCalled => 3 case Cancelled => 2 case ListenerClosed => 1 case Returned => 0;
    starting + stopping + LoopWork(s.loop) + HandlerWork(s.handlers, s.next)
  }

  lemma {:induction false} HandlerWorkChanges(m: map<nat, Handler>, h: nat, v: Handler, n: nat)
    ensures h < n ==>
              HandlerWork(m[h := v], n) ==
              HandlerWork(m, n)
              + (if v == Serving then 2 else if v == Closed then 1 else 0)
              - (if h !in m then 0 else if m[h] == Serving then 2 else if m[h] == Closed then 1 else 0)
    ensures h >= n ==> HandlerWork(m[h := v], n) == HandlerWork(m, n)
  {
    if n > 0 {
      HandlerWorkChanges(m, h, v, n - 1);
    }
  }

  /** After Stop has been called, every step that does anything brings the end nearer. */
  lemma StepsRunOut(s: State, step: Step)
    requires Inv(s) && Done(s) && Enabled(s, step)
    ensures Work(Next(s, step)) < Work(s)
  {
    match step
    case LoopAccept(Conn) => assert HandlerWork(s.handlers, s.next + 1) == HandlerWork(s.handlers, s.next);
    case LoopSpawn => HandlerWorkChanges(s.handlers, s.loop.conn, Serving, s.next);
    case HandlerClose(h) => HandlerWorkChanges(s.handlers, h, Closed, s.next);
    case HandlerDone(h) => HandlerWorkChanges(s.handlers, h, Finished, s.next);
    case _ =>
  }

  /** And until Stop returns there is such a step, without waiting for a Start. */
  lemma StopNeverStuck(s: State)
    requires Inv(s) && Done(s) && s.stop != Returned
    ensures exists step :: step != StartListen && Enabled(s, step)
  {
    if s.stop == Cancelled {
      assert Enabled(s, StopClose);
    } else if s.wg == 0 {
      assert Enabled(s, StopWait);
    } else if LoopLive(s) {
      var step := if s.start == Counted then StartSpawn else
        match s.loop
        case Checking => LoopCheck
        case Accepting => LoopAccept(Error)
        case Holding(_) => LoopAdd
        case Adding(_) => LoopSpawn
        case _ => LoopDone;
      assert Enabled(s, step);
    } else {
      var h :| h in Live(s);
      var step := if s.handlers[h] == Serving then HandlerClose(h) else HandlerDone(h);
      assert Enabled(s, step);
    }
  }

  /** While the server is open, whatever connection arrives gets a handler of its own, counted by the WaitGroup. */
  lemma AcceptedIsServed(steps: seq<Step>)
    requires RunSteps(steps).loop == Accepting && Open(RunSteps(steps))
    ensures var s := RunSteps(steps);
            var t := Next(Next(Next(s, LoopAccept(Conn)), LoopAdd), LoopSpawn);
            && t.handlers == s.handlers[s.next := Serving] && s.next !in s.handlers && t.next == s.next + 1
            && t.wg == s.wg + 1 && t.loop == Checking
  {
    RunKeeps(steps);
    var s := RunSteps(steps);
    assert s.next in s.handlers ==> s.next < s.next;
  }

  /** And once started, a server that is not stopped gets round to accepting. */
  lemma StartedAccepts()
    ensures var s := RunSteps([StartListen, StartAdd, StartSpawn, LoopCheck]); s.loop == Accepting && Open(s)
  {
    var all := [StartListen, StartAdd, StartSpawn, LoopCheck];
    assert all[..3] == [StartListen, StartAdd, StartSpawn];
    assert all[..3][..2] == [StartListen, StartAdd];
    assert all[..3][..2][..1] == [StartListen];
    assert all[..3][..2][..1][..0] == [];
    assert RunSteps([StartListen]) == Next(INITIAL, StartListen);
    assert RunSteps([StartListen, StartAdd]) == Next(Next(INITIAL, StartListen), StartAdd);
  }
}
