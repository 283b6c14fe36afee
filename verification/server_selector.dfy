/**
 * Choosing a server: the semaphore-bounded workers of SelectAllByScore as a machine of steps,
 * one step per channel, lock, slice or WaitGroup operation, and the score they are sorted by.
 */
module ServerSelector {
  import opened Net

  const DEFAULT_CONCURRENCY := 10
  const LOSS_ATTEMPTS := 5
  const SLOWEST := 2000            // ms; anything slower scores like this

  // ----- the score -----

  /** What one worker learns: no info at all (the link does not parse), no connection, or a measurement. */
  datatype Answer = NoInfo | Unavailable | Up(latency: nat, loss: real)

  function Score(a: Answer): (score: real)
    requires a.Up?
  {
    var share := a.latency as real / SLOWEST as real;
    (1.0 - if share < 1.0 then share else 1.0) * 0.5 + (1.0 - a.loss) * 0.5
  }

  predicate Measured(a: Answer) {
    a.Up? ==> 0.0 <= a.loss <= 1.0
  }

  lemma ScoreInUnit(a: Answer)
    requires a.Up? && Measured(a)
    ensures 0.0 <= Score(a) <= 1.0
    ensures Score(a) == 1.0 <==> a.latency == 0 && a.loss == 0.0
    ensures Score(a) == 0.0 <==> a.latency >= SLOWEST && a.loss == 1.0
  {
    assert a.latency >= SLOWEST <==> a.latency as real / SLOWEST as real >= 1.0;
    assert a.latency == 0 <==> a.latency as real / SLOWEST as real == 0.0;
  }

  /** Slower or lossier never scores higher; it scores the same exactly when only a hopeless latency got worse. */
  lemma ScoreAntitone(a: Answer, b: Answer)
    requires a.Up? && b.Up? && a.latency <= b.latency && a.loss <= b.loss
    ensures Score(a) >= Score(b)
    ensures Score(a) == Score(b) <==> a.loss == b.loss && (a.latency == b.latency || a.latency >= SLOWEST)
  {
    var x, y := a.latency as real / SLOWEST as real, b.latency as real / SLOWEST as real;
    assert x <= y && (x == y <==> a.latency == b.latency);
    assert x >= 1.0 <==> a.latency >= SLOWEST;
  }

  /** What a server costs: its latency in units of two seconds, at most one, and its loss. */
  function Cost(a: Answer): real
    requires a.Up?
  {
    (if a.latency >= 2000 then 1.0 else a.latency as real / 2000.0) + a.loss
  }

  /** Latency and loss weigh the same: the score is one minus half the cost. */
  lemma ScoreIs(a: Answer)
    requires a.Up?
    ensures Score(a) == 1.0 - 0.5 * Cost(a)
  {
    assert a.latency >= 2000 <==> a.latency as real / 2000.0 >= 1.0;
  }

  /** Up to two seconds the order is that of latency/2000 + loss. */
  lemma ScoreOrderIff(a: Answer, b: Answer)
    requires a.Up? && b.Up? && a.latency <= 2000 && b.latency <= 2000
    ensures Score(a) >= Score(b) <==>
            a.latency as real / 2000.0 + a.loss <= b.latency as real / 2000.0 + b.loss
  {
    ScoreIs(a);
    ScoreIs(b);
  }

  /** The exchange rate: 400 ms more are worth one lost dial in five less. */
  lemma DialForLatency(a: Answer, b: Answer)
    requires a.Up? && b.Up? && b.latency == a.latency + 400 <= 2000 && a.loss == b.loss + 0.2
    ensures Score(a) == Score(b)
  {
    ScoreIs(a);
    ScoreIs(b);
    assert b.latency as real / 2000.0 == a.latency as real / 2000.0 + 0.2;
  }

  function Failures(dials: seq<bool>): nat {
    if dials == [] then 0 else Failures(dials[..|dials| - 1]) + if dials[|dials| - 1] then 0 else 1
  }

  lemma {:induction false} FailuresAre(dials: seq<bool>)
    ensures Failures(dials) == |set i | 0 <= i < |dials| && !dials[i]|
  {
    if dials != [] {
      var k := |dials| - 1;
      FailuresAre(dials[..k]);
      var was := set i | 0 <= i < |dials[..k]| && !dials[..k][i];
      assert (set i | 0 <= i < |dials| && !dials[i]) == if dials[k] then was else was + {k};
    }
  }

  /** checkPacketLoss: the share of failed dials. */
  method CheckPacketLoss(dials: seq<bool>) returns (loss: real)
    requires |dials| == LOSS_ATTEMPTS
    ensures 0.0 <= loss <= 1.0 && loss * 5.0 == Failures(dials) as real
    ensures loss * 5.0 == |set i | 0 <= i < |dials| && !dials[i]| as real
  {
    var successes := 0;
    for i := 0 to LOSS_ATTEMPTS
      invariant successes == i - Failures(dials[..i]) && 0 <= successes <= i
    {
      assert dials[..i + 1][..i] == dials[..i];
      if dials[i] {
        successes := successes + 1;
      }
    }
    assert dials[..LOSS_ATTEMPTS] == dials;
    FailuresAre(dials);
    loss := (LOSS_ATTEMPTS - successes) as real / LOSS_ATTEMPTS as real;
  }

  /** CheckServerHealth, given what the link extracts to and how its dials end. */
  method CheckServerHealth(extracts: bool, latency: Option<nat>, dials: seq<bool>) returns (answer: Answer)
    requires |dials| == LOSS_ATTEMPTS
    ensures Measured(answer)
    ensures answer.NoInfo? <==> !extracts
    ensures answer.Up? <==> extracts && latency.Some?
    ensures answer.Up? ==> answer.latency == latency.value && answer.loss * 5.0 == Failures(dials) as real
  {
    if !extracts {
      return NoInfo;
    }
    if latency.None? {
      return Unavailable;
    }
    var loss := CheckPacketLoss(dials);
    return Up(latency.value, loss);
  }

  // ----- the pool -----

  /** Where a worker is; `Writing` has read the slice it is about to replace. */
  datatype Worker = Unborn | Checking | Locking | Reading | Writing(copy: seq<nat>)
                  | Unlocking | Releasing | Finishing | Done

  /** The spawning loop: wg.Add, semaphore send, go; then wg.Wait. */
  datatype Spawner = Adding | Acquiring | Spawning | Joining | Joined

  /** `answers` is what each link's check will report; `capacity` is the semaphore's. */
  datatype Pool = Pool(capacity: nat, answers: seq<Answer>)

  /** Slice entries are named by the worker that made them; `checks` counts CheckServerHealth calls per link. */
  datatype State = State(main: Spawner, next: nat, workers: seq<Worker>, sem: nat, wg: nat,
                         holder: Option<nat>, scored: seq<nat>, checks: seq<nat>, crashed: bool)

  datatype Actor = Main | Worker(i: nat)

  /** The capacity a selector is built with: what is configured, a negative number included, but never 0. */
  function NewServerSelector(maxConcurrent: int): (capacity: int)
    ensures capacity == if maxConcurrent == 0 then 10 else maxConcurrent
  {
    if maxConcurrent == 0 then DEFAULT_CONCURRENCY else maxConcurrent
  }

  /** make(chan struct{}, n), which panics on a negative n. */
  function MakeSemaphore(n: int): Option<nat> {
    if n < 0 then None else Some(n)
  }

  /** A selection over some links panics at once exactly if a negative number is configured; else there is room. */
  lemma SemaphoreIff(maxConcurrent: int)
    ensures var semaphore := MakeSemaphore(NewServerSelector(maxConcurrent));
            && (semaphore.None? <==> maxConcurrent < 0)
            && (semaphore.Some? ==> semaphore.value > 0)
  {
  }

  function Init(p: Pool): State {
    var n := |p.answers|;
    State(Adding, 0, seq(n, _ => Unborn), 0, 0, None, [], seq(n, _ => 0), false)
  }

  predicate WellFormed(p: Pool, s: State) {
    |s.workers| == |s.checks| == |p.answers| && s.next <= |p.answers|
  }

  predicate Enabled(p: Pool, s: State, a: Actor)
    requires WellFormed(p, s)
  {
    && !s.crashed
    && match a
       case Main =>
         && (s.main == Acquiring ==> s.sem < p.capacity)
         && (s.main == Spawning ==> s.next < |s.workers|)
         && (s.main == Joining ==> s.wg == 0)
         && s.main != Joined
       case Worker(i) =>
         && i < |s.workers| && s.workers[i] != Unborn && s.workers[i] != Done
         && (s.workers[i] == Locking ==> s.holder == None)
         && (s.workers[i] == Releasing ==> s.sem > 0)
         && (s.workers[i] == Finishing ==> s.wg > 0)
  }

  function Next(p: Pool, s: State, a: Actor): State
    requires WellFormed(p, s) && Enabled(p, s, a)
  {
    if a == Main then MainStep(p, s) else WorkerStep(p, s, a.i)
  }

  function MainStep(p: Pool, s: State): State
    requires WellFormed(p, s) && Enabled(p, s, Main)
  {
    match s.main
    case Adding => if s.next < |p.answers| then s.(wg := s.wg + 1, main := Acquiring) else s.(main := Joining)
    case Acquiring => s.(sem := s.sem + 1, main := Spawning)
    case Spawning => s.(workers := s.workers[s.next := Checking], next := s.next + 1, main := Adding)
    case Joining => s.(main := Joined)
  }

  function WorkerStep(p: Pool, s: State, i: nat): State
    requires WellFormed(p, s) && Enabled(p, s, Worker(i))
  {
    match s.workers[i]
    case Checking =>
      var t := s.(checks := s.checks[i := s.checks[i] + 1]);
      match p.answers[i] {
        case NoInfo => t.(crashed := true)         // the log line reads a field of a nil info
        case Unavailable => Goto(t, i, Releasing)
        case Up(_, _) => Goto(t, i, Locking)
      }
    case Locking => Goto(s, i, Reading).(holder := Some(i))
    case Reading => Goto(s, i, Writing(s.scored))
    case Writing(copy) => Goto(s, i, Unlocking).(scored := copy + [i])
    case Unlocking => Goto(s, i, Releasing).(holder := None)
    case Releasing => Goto(s, i, Finishing).(sem := s.sem - 1)
    case Finishing => Goto(s, i, Done).(wg := s.wg - 1)
  }

  function Goto(s: State, i: nat, w: Worker): State
    requires i < |s.workers|
  {
    s.(workers := s.workers[i := w])
  }

  // ----- counting workers -----

  function Count(ws: seq<Worker>, p: Worker -> bool): nat {
    if ws == [] then 0 else Count(ws[1..], p) + if p(ws[0]) then 1 else 0
  }

  lemma {:induction false} CountUpdate(ws: seq<Worker>, i: nat, w: Worker, p: Worker -> bool)
    requires i < |ws|
    ensures Count(ws[i := w], p) + (if p(ws[i]) then 1 else 0) == Count(ws, p) + if p(w) then 1 else 0
  {
    if i == 0 {
      assert ws[0 := w][1..] == ws[1..];
    } else {
      assert ws[i := w][1..] == ws[1..][i - 1 := w];
      CountUpdate(ws[1..], i - 1, w, p);
    }
  }

  lemma {:induction false} CountFinds(ws: seq<Worker>, p: Worker -> bool)
    ensures Count(ws, p) > 0 <==> exists i :: 0 <= i < |ws| && p(ws[i])
  {
    if ws != [] {
      CountFinds(ws[1..], p);
      if i :| 0 <= i < |ws| && p(ws[i]) {
        assert i > 0 ==> p(ws[1..][i - 1]);
      }
      if i :| 0 <= i < |ws[1..]| && p(ws[1..][i]) {
        assert p(ws[i + 1]);
      }
    }
  }

  lemma {:induction false} CountMonotonic(ws: seq<Worker>, p: Worker -> bool, q: Worker -> bool)
    requires forall w :: p(w) ==> q(w)
    ensures Count(ws, p) <= Count(ws, q)
  {
    if ws != [] {
      CountMonotonic(ws[1..], p, q);
    }
  }

  lemma {:induction false} CountLast(ws: seq<Worker>, w: Worker, p: Worker -> bool)
    ensures Count(ws + [w], p) == Count(ws, p) + if p(w) then 1 else 0
  {
    if ws == [] {
      assert ([] + [w])[1..] == [];
    } else {
      assert (ws + [w])[1..] == ws[1..] + [w];
      CountLast(ws[1..], w, p);
    }
  }

  /** The links being checked at this moment. */
  function InFlight(s: State): set<nat> {
    CheckingIn(s.workers)
  }

  function CheckingIn(ws: seq<Worker>): set<nat> {
    set i | 0 <= i < |ws| && ws[i] == Checking
  }

  lemma {:induction false} CountChecking(ws: seq<Worker>)
    ensures Count(ws, InCheck) == |CheckingIn(ws)|
  {
    if ws != [] {
      var k := |ws| - 1;
      var front := ws[..k];
      CountChecking(front);
      assert ws == front + [ws[k]];
      CountLast(front, ws[k], InCheck);
      var was := CheckingIn(front);
      assert CheckingIn(ws) == if ws[k] == Checking then was + {k} else was;
    }
  }

  predicate InCheck(w: Worker) { w == Checking }
  predicate HasToken(w: Worker) { w != Unborn && w != Finishing && w != Done }
  predicate Live(w: Worker) { w != Unborn && w != Done }
  predicate HasLock(w: Worker) { w.Reading? || w.Writing? || w.Unlocking? }
  predicate Checked(w: Worker) { w != Unborn && w != Checking }
  predicate Scoring(w: Worker) { w.Locking? || HasLock(w) }
  predicate Appended(w: Worker) { w.Unlocking? || w.Releasing? || w.Finishing? || w.Done? }

  // ----- the invariant -----

  /** Semaphore and WaitGroup count the workers, plus the one being started. */
  predicate Counted(capacity: nat, s: State) {
    && s.sem == Count(s.workers, HasToken) + (if s.main == Spawning then 1 else 0)
    && s.wg == Count(s.workers, Live) + (if s.main == Acquiring || s.main == Spawning then 1 else 0)
    && s.sem <= capacity
  }

  predicate Spawned(main: Spawner, next: nat, ws: seq<Worker>) {
    && next <= |ws|
    && (forall i :: 0 <= i < |ws| ==> (ws[i] == Unborn <==> i >= next))
    && (main == Acquiring || main == Spawning ==> next < |ws|)
    && (main == Joining || main == Joined ==> next == |ws|)
    && (main == Joined ==> Count(ws, Live) == 0)
  }

  /** The mutex has one holder, and nobody else changes the slice between the holder's read and write. */
  predicate Locked(ws: seq<Worker>, holder: Option<nat>, scored: seq<nat>) {
    && (forall i :: 0 <= i < |ws| ==> (HasLock(ws[i]) <==> holder == Some(i)))
    && (forall i :: 0 <= i < |ws| && ws[i].Writing? ==> ws[i].copy == scored)
    && (holder.Some? ==> holder.value < |ws|)
  }

  /** The slice holds exactly the available servers whose workers have appended. */
  predicate Collected(answers: seq<Answer>, ws: seq<Worker>, scored: seq<nat>)
    requires |ws| == |answers|
  {
    && (forall i :: 0 <= i < |ws| && Scoring(ws[i]) ==> answers[i].Up?)
    && (forall i :: 0 <= i < |ws| ==> (i in scored <==> answers[i].Up? && Appended(ws[i])))
    && NoDuplicates(scored)
    && (forall i :: i in scored ==> i < |ws|)
  }

  predicate NoDuplicates(xs: seq<nat>) {
    forall i, j :: 0 <= i < j < |xs| ==> xs[i] != xs[j]
  }

  predicate CheckedOnce(answers: seq<Answer>, ws: seq<Worker>, checks: seq<nat>)
    requires |ws| == |answers| == |checks|
  {
    forall i :: 0 <= i < |ws| ==>
      checks[i] == (if Checked(ws[i]) then 1 else 0) && (Checked(ws[i]) ==> answers[i] != NoInfo)
  }

  /** A crash happens in the check of a link that yields no info. */
  predicate CrashExplained(answers: seq<Answer>, ws: seq<Worker>, crashed: bool)
    requires |ws| == |answers|
  {
    crashed ==> exists i :: 0 <= i < |answers| && answers[i] == NoInfo && ws[i] == Checking
  }

  predicate Inv(p: Pool, s: State) {
    && WellFormed(p, s)
    && Counted(p.capacity, s) && Spawned(s.main, s.next, s.workers)
    && Locked(s.workers, s.holder, s.scored)
    && Collected(p.answers, s.workers, s.scored)
    && (!s.crashed ==> CheckedOnce(p.answers, s.workers, s.checks))
    && CrashExplained(p.answers, s.workers, s.crashed)
  }

  lemma {:induction false} NoneBorn(ws: seq<Worker>)
    requires forall i :: 0 <= i < |ws| ==> ws[i] == Unborn
    ensures Count(ws, HasToken) == Count(ws, Live) == 0
  {
    if ws != [] {
      NoneBorn(ws[1..]);
    }
  }

  lemma InitHolds(p: Pool)
    ensures Inv(p, Init(p))
  {
    NoneBorn(Init(p).workers);
  }

  lemma MainKeeps(p: Pool, s: State)
    requires Inv(p, s) && Enabled(p, s, Main)
    ensures Inv(p, MainStep(p, s))
  {
    if s.main == Spawning {
      CountUpdate(s.workers, s.next, Checking, HasToken);
      CountUpdate(s.workers, s.next, Checking, Live);
    }
  }

  function Bit(b: bool): nat {
    if b then 1 else 0
  }

  /** How a worker's step moves it, and what it does to each shared variable. */
  predicate Effect(p: Pool, s: State, i: nat, w: Worker, t: State)
    requires WellFormed(p, s) && i < |s.workers|
  {
    var was := s.workers[i];
    && t.main == s.main && t.next == s.next && t.workers == s.workers[i := w] && |t.checks| == |s.checks|
    && Live(was) && w != Unborn
    && t.sem + Bit(HasToken(was)) == s.sem + Bit(HasToken(w))
    && t.wg + Bit(Live(was)) == s.wg + Bit(Live(w))
    && (HasToken(w) ==> HasToken(was))
  }

  predicate LockEffect(s: State, i: nat, w: Worker, t: State)
    requires i < |s.workers|
  {
    var was := s.workers[i];
    && (HasLock(w) && !HasLock(was) ==> s.holder == None)
    && t.holder == (if HasLock(w) then Some(i) else if HasLock(was) then None else s.holder)
    && t.scored == (if was.Writing? then was.copy + [i] else s.scored)
    && (was.Writing? ==> w.Unlocking?)
    && (w.Writing? ==> w.copy == s.scored && was.Reading?)
  }

  predicate CheckEffect(p: Pool, s: State, i: nat, w: Worker, t: State)
    requires WellFormed(p, s) && i < |s.workers|
  {
    var was := s.workers[i];
    && (t.crashed ==> p.answers[i] == NoInfo && w == Checking)
    && (!t.crashed ==> (Checked(w) ==> Checked(was) || p.answers[i] != NoInfo))
    && (!t.crashed ==> t.checks == s.checks[i := s.checks[i] + Bit(was == Checking)] && Checked(w))
    && (Scoring(w) ==> Scoring(was) || p.answers[i].Up?)
    && (Appended(w) ==> Appended(was) || was.Writing? || !p.answers[i].Up?)
    && (Appended(was) ==> Appended(w))
  }

  lemma WorkerEffect(p: Pool, s: State, i: nat)
    requires WellFormed(p, s) && Enabled(p, s, Worker(i))
    ensures Effect(p, s, i, WorkerStep(p, s, i).workers[i], WorkerStep(p, s, i))
  {
  }

  lemma WorkerLockEffect(p: Pool, s: State, i: nat)
    requires WellFormed(p, s) && Enabled(p, s, Worker(i)) && Locked(s.workers, s.holder, s.scored)
    ensures LockEffect(s, i, WorkerStep(p, s, i).workers[i], WorkerStep(p, s, i))
  {
  }

  lemma WorkerCheckEffect(p: Pool, s: State, i: nat)
    requires WellFormed(p, s) && Enabled(p, s, Worker(i))
    ensures CheckEffect(p, s, i, WorkerStep(p, s, i).workers[i], WorkerStep(p, s, i))
  {
  }

  lemma CountsKept(p: Pool, s: State, i: nat, w: Worker, t: State)
    requires WellFormed(p, s) && i < |s.workers| && Counted(p.capacity, s) && Spawned(s.main, s.next, s.workers)
    requires Effect(p, s, i, w, t)
    ensures Counted(p.capacity, t) && Spawned(t.main, t.next, t.workers)
  {
    CountUpdate(s.workers, i, w, HasToken);
    CountUpdate(s.workers, i, w, Live);
  }

  lemma LockKept(s: State, i: nat, w: Worker, t: State)
    requires i < |s.workers| && Locked(s.workers, s.holder, s.scored)
    requires t.workers == s.workers[i := w] && LockEffect(s, i, w, t)
    ensures Locked(t.workers, t.holder, t.scored)
  {
  }

  lemma CollectionKept(p: Pool, s: State, i: nat, w: Worker, t: State)
    requires WellFormed(p, s) && i < |s.workers| && Collected(p.answers, s.workers, s.scored)
    requires t.workers == s.workers[i := w]
    requires Locked(s.workers, s.holder, s.scored)
    requires LockEffect(s, i, w, t) && CheckEffect(p, s, i, w, t)
    ensures Collected(p.answers, t.workers, t.scored)
  {
  }

  lemma StepKeeps(p: Pool, s: State, a: Actor)
    requires Inv(p, s) && Enabled(p, s, a)
    ensures Inv(p, Next(p, s, a))
  {
    if a == Main {
      MainKeeps(p, s);
    } else {
      WorkerKeeps(p, s, a.i);
    }
  }

  lemma WorkerKeeps(p: Pool, s: State, i: nat)
    requires Inv(p, s) && Enabled(p, s, Worker(i))
    ensures Inv(p, WorkerStep(p, s, i))
  {
    var t := WorkerStep(p, s, i);
    var w := t.workers[i];
    WorkerEffect(p, s, i);
    WorkerLockEffect(p, s, i);
    WorkerCheckEffect(p, s, i);
    CountsKept(p, s, i, w, t);
    LockKept(s, i, w, t);
    CollectionKept(p, s, i, w, t);
  }

  // ----- progress -----

  function Rank(w: Worker): nat {
    match w
    case Unborn => 8
    case Checking => 7
    case Locking => 6
    case Reading => 5
    case Writing(_) => 4
    case Unlocking => 3
    case Releasing => 2
    case Finishing => 1
    case Done => 0
  }

  function Ranks(ws: seq<Worker>): nat {
    if ws == [] then 0 else Ranks(ws[1..]) + Rank(ws[0])
  }

  lemma {:induction false} RanksUpdate(ws: seq<Worker>, i: nat, w: Worker)
    requires i < |ws|
    ensures Ranks(ws[i := w]) + Rank(ws[i]) == Ranks(ws) + Rank(w)
  {
    if i == 0 {
      assert ws[0 := w][1..] == ws[1..];
    } else {
      assert ws[i := w][1..] == ws[1..][i - 1 := w];
      RanksUpdate(ws[1..], i - 1, w);
    }
  }

  lemma {:induction false} RanksUnborn(ws: seq<Worker>)
    requires forall i :: 0 <= i < |ws| ==> ws[i] == Unborn
    ensures Ranks(ws) == 8 * |ws|
  {
    if ws != [] {
      RanksUnborn(ws[1..]);
    }
  }

  /** What is left to do: every step of every actor takes some of it away. */
  function Work(p: Pool, s: State): nat
    requires WellFormed(p, s)
  {
    var left := 4 * (|p.answers| - s.next);
    Ranks(s.workers) + Bit(!s.crashed) +
    match s.main
    case Adding => left + 2
    case Acquiring => left + 1
    case Spawning => left
    case Joining => 1
    case Joined => 0
  }

  lemma WorkerRankEffect(p: Pool, s: State, i: nat)
    requires WellFormed(p, s) && Enabled(p, s, Worker(i))
    ensures var t := WorkerStep(p, s, i);
            t.workers == s.workers[i := t.workers[i]] && t.main == s.main && t.next == s.next &&
            |t.checks| == |s.checks| &&
            Rank(t.workers[i]) + Bit(!t.crashed) < Rank(s.workers[i]) + Bit(!s.crashed)
  {
  }

  lemma MainWorks(p: Pool, s: State)
    requires Inv(p, s) && Enabled(p, s, Main)
    ensures WellFormed(p, MainStep(p, s)) && Work(p, MainStep(p, s)) < Work(p, s)
  {
    if s.main == Spawning {
      RanksUpdate(s.workers, s.next, Checking);
    }
  }

  lemma StepWorks(p: Pool, s: State, a: Actor)
    requires Inv(p, s) && Enabled(p, s, a)
    ensures WellFormed(p, Next(p, s, a)) && Work(p, Next(p, s, a)) < Work(p, s)
  {
    if a == Main {
      MainWorks(p, s);
    } else {
      WorkerRankEffect(p, s, a.i);
      RanksUpdate(s.workers, a.i, WorkerStep(p, s, a.i).workers[a.i]);
    }
  }

  /** While the main goroutine has not joined, something can move, as long as the semaphore has room at all. */
  lemma SomethingMoves(p: Pool, s: State)
    requires Inv(p, s) && p.capacity > 0 && !s.crashed && s.main != Joined
    ensures exists a :: Enabled(p, s, a)
  {
    CountFinds(s.workers, HasToken);
    CountFinds(s.workers, Live);
    if !Enabled(p, s, Main) {
      var i :| 0 <= i < |s.workers| && Live(s.workers[i]);
      var mover := if s.workers[i] == Locking && s.holder.Some? then s.holder.value else i;
      assert Enabled(p, s, Worker(mover));
    }
  }

  // ----- whole runs -----

  function After(p: Pool, s: State, run: seq<Actor>): Option<State>
    decreases |run|
  {
    if run == [] then Some(s)
    else if WellFormed(p, s) && Enabled(p, s, run[0]) then After(p, Next(p, s, run[0]), run[1..])
    else None
  }

  lemma {:induction false} RunKeeps(p: Pool, s: State, run: seq<Actor>)
    requires Inv(p, s) && After(p, s, run).Some?
    ensures Inv(p, After(p, s, run).value)
    ensures Work(p, After(p, s, run).value) + |run| <= Work(p, s)
    decreases |run|
  {
    if run != [] {
      StepKeeps(p, s, run[0]);
      StepWorks(p, s, run[0]);
      RunKeeps(p, Next(p, s, run[0]), run[1..]);
    }
  }

  /**
   * In every state of every interleaving: checks in flight never exceed the semaphore, no link is
   * checked twice, a crash needs a link that does not parse, and runs end, by joining unless they crash.
   */
  lemma PoolSafe(p: Pool, run: seq<Actor>)
    requires After(p, Init(p), run).Some?
    ensures var s := After(p, Init(p), run).value;
            && |InFlight(s)| <= p.capacity
            && (!s.crashed ==> forall i :: 0 <= i < |s.checks| ==> s.checks[i] <= 1)
            && (s.crashed ==> SomeWithoutInfo(p.answers))
            && |run| <= 12 * |p.answers| + 3
            && WellFormed(p, s)
            && (p.capacity > 0 && !s.crashed && s.main != Joined ==> exists a :: Enabled(p, s, a))
  {
    InitHolds(p);
    RunKeeps(p, Init(p), run);
    RanksUnborn(Init(p).workers);
    var s := After(p, Init(p), run).value;
    CountMonotonic(s.workers, InCheck, HasToken);
    CountChecking(s.workers);
    if p.capacity > 0 && !s.crashed && s.main != Joined {
      SomethingMoves(p, s);
    }
  }

  /** Once joined, every link has been checked exactly once and the slice names exactly the available ones. */
  lemma JoinedComplete(p: Pool, run: seq<Actor>)
    requires After(p, Init(p), run).Some? && After(p, Init(p), run).value.main == Joined
    ensures var s := After(p, Init(p), run).value;
            && !s.crashed && !SomeWithoutInfo(p.answers)
            && s.checks == seq(|p.answers|, _ => 1)
            && NoDuplicates(s.scored)
            && forall i :: i in s.scored <==> Available(p.answers, i)
  {
    InitHolds(p);
    RunKeeps(p, Init(p), run);
    var s := After(p, Init(p), run).value;
    CountFinds(s.workers, Live);
    forall i | 0 <= i < |s.workers|
      ensures s.workers[i] == Done
    {
      assert !Live(s.workers[i]);
    }
  }

  predicate SomeWithoutInfo(answers: seq<Answer>) {
    exists i :: 0 <= i < |answers| && answers[i] == NoInfo
  }

  /** Nothing can move any more. */
  ghost predicate Complete(p: Pool, s: State)
    requires WellFormed(p, s)
  {
    forall a :: !Enabled(p, s, a)
  }

  /**
   * Every complete run of a selector's pool, whatever the interleaving, ends joined or crashed, and it
   * crashes if and only if some link yields no info. With the bound of PoolSafe, every run gets there.
   */
  lemma CompleteRunCrashesIff(maxConcurrent: int, p: Pool, run: seq<Actor>)
    requires MakeSemaphore(NewServerSelector(maxConcurrent)) == Some(p.capacity)
    requires After(p, Init(p), run).Some? && WellFormed(p, After(p, Init(p), run).value)
    requires Complete(p, After(p, Init(p), run).value)
    ensures var s := After(p, Init(p), run).value;
            && (s.crashed <==> SomeWithoutInfo(p.answers))
            && (s.main == Joined <==> !SomeWithoutInfo(p.answers))
  {
    PoolSafe(p, run);
    if After(p, Init(p), run).value.main == Joined {
      JoinedComplete(p, run);
    }
  }

  /** One link that does not parse, and the run that crashes on it. */
  lemma CrashingRun(capacity: nat)
    requires capacity > 0
    ensures var p := Pool(capacity, [NoInfo]);
            var end := After(p, Init(p), [Main, Main, Main, Worker(0)]);
            end.Some? && end.value.crashed
  {
    var p := Pool(capacity, [NoInfo]);
    var s1 := Next(p, Init(p), Main);
    var s2 := Next(p, s1, Main);
    var s3 := Next(p, s2, Main);
    var s4 := Next(p, s3, Worker(0));
    assert After(p, s3, [Worker(0)]) == After(p, s4, []) == Some(s4);
    assert [Main, Worker(0)][1..] == [Worker(0)];
    assert After(p, s2, [Main, Worker(0)]) == Some(s4);
    assert [Main, Main, Worker(0)][1..] == [Main, Worker(0)];
    assert After(p, s1, [Main, Main, Worker(0)]) == Some(s4);
    assert [Main, Main, Main, Worker(0)][1..] == [Main, Main, Worker(0)];
  }

  /** A semaphore without room would block the first send for ever; NewServerSelector rules it out. */
  lemma ZeroCapacityBlocks(p: Pool, a: Actor)
    requires p.capacity == 0 && p.answers != []
    ensures After(p, Init(p), [Main]).Some?
    ensures var s := After(p, Init(p), [Main]).value;
            s.main == Acquiring && WellFormed(p, s) && !Enabled(p, s, a)
  {
    assert After(p, Init(p), [Main]) == After(p, Next(p, Init(p), Main), []);
  }

  // ----- the result -----

  datatype Result = NoLinks | NoneAvailable | Selected(servers: seq<nat>)

  predicate Available(answers: seq<Answer>, i: nat) {
    i < |answers| && answers[i].Up?
  }

  function ScoreOf(answers: seq<Answer>, i: nat): real
    requires Available(answers, i)
  {
    Score(answers[i])
  }

  predicate Descending(answers: seq<Answer>, servers: seq<nat>) {
    && (forall k :: 0 <= k < |servers| ==> Available(answers, servers[k]))
    && forall j, k :: 0 <= j < k < |servers| ==> ScoreOf(answers, servers[j]) >= ScoreOf(answers, servers[k])
  }

  /** What SelectAllByScore may return after `run`: the sort is any that permutes and orders. */
  predicate Returned(p: Pool, run: seq<Actor>, result: Result) {
    if p.answers == [] then result == NoLinks
    else
      && After(p, Init(p), run).Some?
      && var s := After(p, Init(p), run).value;
         && s.main == Joined
         && if s.scored == [] then result == NoneAvailable
            else
              && result.Selected?
              && multiset(result.servers) == multiset(s.scored)
              && Descending(p.answers, result.servers)
  }

  lemma {:induction false} OnceEach(xs: seq<nat>, x: nat)
    requires NoDuplicates(xs)
    ensures multiset(xs)[x] <= 1
  {
    if xs != [] {
      assert xs == [xs[0]] + xs[1..];
      assert NoDuplicates(xs[1..]) by {
        forall i, j | 0 <= i < j < |xs[1..]| ensures xs[1..][i] != xs[1..][j] {
          assert xs[i + 1] != xs[j + 1];
        }
      }
      OnceEach(xs[1..], x);
      if x == xs[0] {
        assert x !in xs[1..];
      }
    }
  }

  lemma PermutationNoDuplicates(xs: seq<nat>, ys: seq<nat>)
    requires NoDuplicates(xs) && multiset(ys) == multiset(xs)
    ensures NoDuplicates(ys)
  {
    forall i, j | 0 <= i < j < |ys|
      ensures ys[i] != ys[j]
    {
      OnceEach(xs, ys[i]);
      assert ys == ys[..j] + [ys[j]] + ys[j + 1..];
      assert ys[i] in ys[..j];
      assert multiset(ys) == multiset(ys[..j]) + multiset{ys[j]} + multiset(ys[j + 1..]);
    }
  }

  lemma SamePermutation(xs: seq<nat>, ys: seq<nat>, x: nat)
    requires multiset(ys) == multiset(xs)
    ensures x in ys <==> x in xs
  {
    assert x in ys <==> x in multiset(ys);
  }

  /** The order by score is the order by cost. */
  lemma DescendingIsCheapestFirst(answers: seq<Answer>, servers: seq<nat>)
    requires Descending(answers, servers)
    ensures forall j, k :: 0 <= j < k < |servers| ==> Cost(answers[servers[j]]) <= Cost(answers[servers[k]])
  {
    forall j, k | 0 <= j < k < |servers|
      ensures Cost(answers[servers[j]]) <= Cost(answers[servers[k]])
    {
      assert ScoreOf(answers, servers[j]) >= ScoreOf(answers, servers[k]);
      ScoreIs(answers[servers[j]]);
      ScoreIs(answers[servers[k]]);
    }
  }

  /** The result lists exactly the available servers, each once, best first; its head is what SelectBest picks. */
  lemma SelectionMeaning(p: Pool, run: seq<Actor>, result: Result)
    requires Returned(p, run, result)
    ensures result.NoLinks? <==> p.answers == []
    ensures result.NoneAvailable? <==> p.answers != [] && forall i :: !Available(p.answers, i)
    ensures result.Selected? ==>
              && NoDuplicates(result.servers)
              && (forall i :: i in result.servers <==> Available(p.answers, i))
              && Descending(p.answers, result.servers)
              && (forall j, k :: 0 <= j < k < |result.servers| ==>
                    Cost(p.answers[result.servers[j]]) <= Cost(p.answers[result.servers[k]]))
              && result.servers != []
    ensures result.Selected? ==>
              forall i :: Available(p.answers, i) ==> ScoreOf(p.answers, result.servers[0]) >= ScoreOf(p.answers, i)
  {
    if p.answers != [] {
      JoinedComplete(p, run);
      var s := After(p, Init(p), run).value;
      if result.Selected? {
        PermutationNoDuplicates(s.scored, result.servers);
        forall i: nat ensures i in result.servers <==> i in s.scored {
          SamePermutation(s.scored, result.servers, i);
        }
        assert |multiset(result.servers)| == |result.servers|;
        HeadBest(p.answers, result.servers);
        DescendingIsCheapestFirst(p.answers, result.servers);
      } else {
        assert forall i :: i !in s.scored;
      }
    }
  }

  lemma HeadBest(answers: seq<Answer>, servers: seq<nat>)
    requires Descending(answers, servers) && servers != []
    ensures forall i :: i in servers ==> Available(answers, i) && ScoreOf(answers, servers[0]) >= ScoreOf(answers, i)
  {
  }

  function Members(xs: seq<nat>): set<nat> {
    set x | x in xs
  }

  lemma {:induction false} SetSize(xs: seq<nat>)
    requires NoDuplicates(xs)
    ensures |Members(xs)| == |xs|
  {
    if xs != [] {
      var front, last := xs[..|xs| - 1], xs[|xs| - 1];
      SetSize(front);
      assert xs == front + [last];
      assert Members(xs) == Members(front) + {last};
      assert last !in Members(front);
    }
  }

  lemma SubsetSize(a: set<nat>, b: set<nat>)
    requires a <= b
    ensures |a| <= |b|
  {
    assert b == a + (b - a);
  }

  /** A server scoring above place k of a descending list stands before it. */
  lemma StandsBefore(answers: seq<Answer>, ys: seq<nat>, k: nat, x: nat)
    requires Descending(answers, ys) && k < |ys| && x in ys && ScoreOf(answers, x) > ScoreOf(answers, ys[k])
    ensures x in ys[..k]
  {
    var j :| 0 <= j < |ys| && ys[j] == x;
    assert j < k;
    assert ys[..k][j] == x;
  }

  /** At each place the second list is no worse: otherwise k + 1 servers would fit in k places. */
  lemma NoBetterAt(answers: seq<Answer>, xs: seq<nat>, ys: seq<nat>, k: nat)
    requires NoDuplicates(xs) && NoDuplicates(ys) && Descending(answers, xs) && Descending(answers, ys)
    requires forall x :: x in xs ==> x in ys
    requires k < |xs| && k < |ys|
    ensures ScoreOf(answers, xs[k]) <= ScoreOf(answers, ys[k])
  {
    if ScoreOf(answers, xs[k]) > ScoreOf(answers, ys[k]) {
      var better, places := xs[..k + 1], ys[..k];
      forall x | x in better
        ensures x in places
      {
        var i :| 0 <= i <= k && xs[i] == x;
        assert i == k || ScoreOf(answers, xs[i]) >= ScoreOf(answers, xs[k]);
        StandsBefore(answers, ys, k, x);
      }
      SetSize(better);
      SetSize(places);
      SubsetSize(Members(better), Members(places));
      assert false;
    }
  }

  lemma SameLength(xs: seq<nat>, ys: seq<nat>)
    requires NoDuplicates(xs) && NoDuplicates(ys)
    requires forall x :: x in xs <==> x in ys
    ensures |xs| == |ys|
  {
    SetSize(xs);
    SetSize(ys);
    assert Members(xs) == Members(ys);
  }

  lemma SameScores(answers: seq<Answer>, xs: seq<nat>, ys: seq<nat>)
    requires NoDuplicates(xs) && NoDuplicates(ys) && Descending(answers, xs) && Descending(answers, ys)
    requires forall x :: x in xs <==> x in ys
    ensures |xs| == |ys|
    ensures forall k :: 0 <= k < |xs| ==> ScoreOf(answers, xs[k]) == ScoreOf(answers, ys[k])
    ensures DistinctScores(answers) ==> xs == ys
  {
    SameLength(xs, ys);
    forall k | 0 <= k < |xs|
      ensures ScoreOf(answers, xs[k]) == ScoreOf(answers, ys[k])
    {
      NoBetterAt(answers, xs, ys, k);
      NoBetterAt(answers, ys, xs, k);
    }
  }

  ghost predicate DistinctScores(answers: seq<Answer>) {
    forall i, j :: Available(answers, i) && Available(answers, j) && i != j ==>
      ScoreOf(answers, i) != ScoreOf(answers, j)
  }

  /**
   * The interleaving and the sort's tie-breaking do not show: any two runs return the same kind of
   * result with the same scores place by place, hence the same list when the scores are distinct.
   */
  lemma InterleavingIndependent(p: Pool, run: seq<Actor>, result: Result, run': seq<Actor>, result': Result)
    requires Returned(p, run, result) && Returned(p, run', result')
    ensures result.NoLinks? == result'.NoLinks? && result.NoneAvailable? == result'.NoneAvailable?
    ensures result.Selected? ==>
              && Descending(p.answers, result.servers) && Descending(p.answers, result'.servers)
              && |result.servers| == |result'.servers|
              && forall k :: 0 <= k < |result.servers| ==>
                   ScoreOf(p.answers, result.servers[k]) == ScoreOf(p.answers, result'.servers[k])
    ensures result.Selected? && DistinctScores(p.answers) ==> result == result'
  {
    SelectionMeaning(p, run, result);
    SelectionMeaning(p, run', result');
    if result.Selected? {
      SameScores(p.answers, result.servers, result'.servers);
    }
  }
}
