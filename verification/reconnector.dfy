/** The reconnection loop: exponential backoff with compounding jitter, and its retry limit. Durations are reals. */
module Reconnector {
  const DEFAULT_MIN := 5.0       // seconds
  const DEFAULT_MAX := 300.0
  const DEFAULT_FACTOR := 2.0

  datatype Config = Config(min: real, max: real, factor: real, maxRetries: int)

  predicate Sane(c: Config) {
    0.0 < c.min <= c.max && c.factor > 1.0 && c.maxRetries >= 0
  }

  /** SetDefaults: whatever was configured, the result is sane, and a sane configuration is kept. */
  method SetDefaults(c: Config) returns (r: Config)
    ensures Sane(r)
    ensures Sane(c) ==> r == c
    ensures r.min == if c.min <= 0.0 then 5.0 else c.min
    ensures var max := if c.max <= 0.0 then 300.0 else c.max; r.max == if max < r.min then 2.0 * r.min else max
    ensures r.factor == if c.factor <= 1.0 then 2.0 else c.factor
    ensures r.maxRetries == if c.maxRetries < 0 then 0 else c.maxRetries
  {
    r := c;
    if r.min <= 0.0 {
      r := r.(min := DEFAULT_MIN);
    }
    if r.max <= 0.0 {
      r := r.(max := DEFAULT_MAX);
    }
    if r.max < r.min {
      r := r.(max := r.min * 2.0);
    }
    if r.factor <= 1.0 {
      r := r.(factor := DEFAULT_FACTOR);
    }
    if r.maxRetries < 0 {
      r := r.(maxRetries := 0);
    }
  }

  function Min(a: real, b: real): real {
    if a <= b then a else b
  }

  /** start * ratio^n. */
  function Geometric(start: real, ratio: real, n: nat): real {
    if n == 0 then start else Times(ratio, Geometric(start, ratio, n - 1))
  }

  function Times(a: real, b: real): real {
    a * b
  }

  /** What peekNextBackoff announces. */
  function Peek(c: Config, last: real): real {
    if last == 0.0 then c.min else Min(last * c.factor, c.max)
  }

  /** The envelope of the n-th backoff after a reset. */
  function Lower(c: Config, n: nat): real
    requires n >= 1
  {
    0.875 * Min(c.max, Geometric(c.min, 0.875 * c.factor, n - 1))
  }

  function Upper(c: Config, n: nat): real
    requires n >= 1
  {
    Min(c.max, 1.375 * Geometric(c.min, 1.375 * c.factor, n - 1))
  }

  predicate InEnvelope(c: Config, last: real, n: nat) {
    if n == 0 then last == 0.0 else Lower(c, n) <= last <= Upper(c, n)
  }

  lemma MulMono(a: real, b: real, k: real)
    requires a <= b && k >= 0.0
    ensures a * k <= b * k && k * a <= k * b
  {
  }

  lemma {:induction false} ShrinkingBelowStart(start: real, ratio: real, n: nat)
    requires start > 0.0 && ratio > 0.0
    ensures ratio <= 1.0 ==> Geometric(start, ratio, n) <= start
    ensures Geometric(start, ratio, n) > 0.0
  {
    if n > 0 {
      var q := Geometric(start, ratio, n - 1);
      ShrinkingBelowStart(start, ratio, n - 1);
      MulPositive(ratio, q);
      if ratio <= 1.0 {
        MulMono(ratio, 1.0, q);
      }
    }
  }

  lemma PeekPositive(c: Config, last: real)
    requires Sane(c) && last >= 0.0
    ensures 0.0 < Peek(c, last) <= c.max
  {
    if last > 0.0 {
      MulPositive(last, c.factor);
    }
  }

  lemma MulPositive(a: real, b: real)
    requires a > 0.0 && b > 0.0
    ensures a * b > 0.0
  {
  }

  /** A cap that held one step ago, raised by `g`, is no lower than the cap one step on. */
  lemma LowerGrows(max: real, g: real, q: real)
    requires max > 0.0 && g > 0.0
    requires g <= 1.0 ==> q <= max
    ensures Min(max, q) * g >= Min(max, Times(g, q))
  {
    if q > max {
      MulMono(1.0, g, max);
    }
  }

  lemma ScaleLower(r: real, last: real, f: real)
    requires last >= 0.875 * r && f > 0.0
    ensures last * f >= r * (0.875 * f)
  {
    MulMono(0.875 * r, last, f);
  }

  lemma ScaleUpper(r: real, last: real, f: real)
    requires last <= 1.375 * r && f > 0.0
    ensures last * f <= r * (1.375 * f)
  {
    MulMono(last, 1.375 * r, f);
  }

  lemma LowerStep(c: Config, n: nat, last: real)
    requires Sane(c) && n >= 1 && last >= Lower(c, n)
    ensures last * c.factor >= Min(c.max, Geometric(c.min, 0.875 * c.factor, n))
  {
    var g := 0.875 * c.factor;
    var q := Geometric(c.min, g, n - 1);
    ShrinkingBelowStart(c.min, g, n - 1);
    LowerGrows(c.max, g, q);
    ScaleLower(Min(c.max, q), last, c.factor);
  }

  lemma UpperStep(c: Config, n: nat, last: real)
    requires Sane(c) && n >= 1 && last <= Upper(c, n)
    ensures last * c.factor <= Geometric(c.min, 1.375 * c.factor, n)
  {
    var g := 1.375 * c.factor;
    var q := Geometric(c.min, g, n - 1);
    ScaleUpper(q, last, c.factor);
    assert q * g == g * q;
  }

  lemma PeekLow(c: Config, n: nat, last: real)
    requires Sane(c) && n >= 1 && last > 0.0 && last >= Lower(c, n)
    ensures Min(c.max, Geometric(c.min, 0.875 * c.factor, n)) <= Peek(c, last)
  {
    LowerStep(c, n, last);
  }

  lemma PeekHigh(c: Config, n: nat, last: real)
    requires Sane(c) && n >= 1 && last > 0.0 && last <= Upper(c, n)
    ensures Peek(c, last) <= Geometric(c.min, 1.375 * c.factor, n)
  {
    UpperStep(c, n, last);
  }

  /** The jitter moves a backoff to between 7/8 and 11/8 of it. */
  lemma JitterBounds(base: real, sin: real, jitter: real)
    requires 0.0 < base && -1.0 <= sin <= 1.0 && jitter == base * 0.25 * (sin + 0.5)
    ensures 0.875 * base <= base + jitter <= 1.375 * base
  {
    MulMono(-0.5, sin + 0.5, base * 0.25);
    MulMono(sin + 0.5, 1.5, base * 0.25);
  }

  /** The next backoff stays in the envelope, wherever in it the last one was. */
  lemma NextInEnvelope(c: Config, n: nat, last: real, next: real)
    requires Sane(c) && InEnvelope(c, last, n)
    requires n >= 1 ==> last > 0.0
    requires Near(Peek(c, last), c.max, next)
    ensures InEnvelope(c, next, n + 1)
  {
    if n > 0 {
      PeekLow(c, n, last);
      PeekHigh(c, n, last);
    }
    EnvelopeOf(c, n, Peek(c, last), next);
  }

  lemma EnvelopeOf(c: Config, n: nat, peeked: real, next: real)
    requires Min(c.max, Geometric(c.min, 0.875 * c.factor, n)) <= peeked <= Geometric(c.min, 1.375 * c.factor, n)
    requires Near(peeked, c.max, next)
    ensures InEnvelope(c, next, n + 1)
  {
    var low, high := Geometric(c.min, 0.875 * c.factor, n), Geometric(c.min, 1.375 * c.factor, n);
    Capped(peeked, c.max, low, high, next);
  }

  function WithJitter(backoff: real, sin: real, max: real): real {
    Min(backoff + backoff * 0.25 * (sin + 0.5), max)
  }

  /** A quarter of the backoff, times the sine plus one half, comes on top, up to the cap. */
  lemma WithJitterIs(backoff: real, sin: real, max: real)
    ensures var jittered := backoff + backoff * 0.25 * (sin + 0.5);
            WithJitter(backoff, sin, max) == if jittered > max then max else jittered
  {
  }

  /** What the jitter and the final cap leave of a backoff. */
  predicate Near(backoff: real, max: real, next: real) {
    0.875 * backoff <= next <= Min(1.375 * backoff, max)
  }

  lemma Capped(peeked: real, max: real, low: real, high: real, next: real)
    requires Min(max, low) <= peeked <= high && Near(peeked, max, next)
    ensures 0.875 * Min(max, low) <= next <= Min(max, 1.375 * high)
  {
  }

  // ----- the loop -----

  datatype Signal = Nothing | ContextDone | StopRequested

  /** One turn: what interrupts the wait, whether reconnecting works, what is pending afterwards. */
  datatype Round = Round(wait: Signal, connects: bool, after: Signal)

  datatype Result = Reconnected | GaveUp | ContextError | Stopped | AlreadyRunning

  function Interrupted(s: Signal): Result
    requires s != Nothing
  {
    if s == ContextDone then ContextError else Stopped
  }

  /** The result and the number of reconnect calls; the context is done when the script ends. */
  function Play(script: seq<Round>, maxRetries: nat, calls: nat): (Result, nat)
    decreases |script|
  {
    if maxRetries > 0 && 2 * calls >= maxRetries then (GaveUp, calls)
    else if script == [] then (ContextError, calls)
    else
      var r := script[0];
      if r.wait != Nothing then (Interrupted(r.wait), calls)
      else if r.connects then (Reconnected, calls + 1)
      else if r.after != Nothing then (Interrupted(r.after), calls + 1)
      else Play(script[1..], maxRetries, calls + 1)
  }

  predicate Fails(r: Round) {
    r == Round(Nothing, false, Nothing)
  }

  lemma {:induction false} PlayFrom(script: seq<Round>, maxRetries: nat, calls: nat)
    requires maxRetries > 0 && calls <= (maxRetries + 1) / 2
    ensures var (result, total) := Play(script, maxRetries, calls);
            var left := (maxRetries + 1) / 2 - calls;
            && calls <= total <= calls + left
            && (result == GaveUp <==> left <= |script| && forall i :: 0 <= i < left ==> Fails(script[i]))
            && (result == GaveUp ==> total == calls + left)
    decreases |script|
  {
    if 2 * calls < maxRetries && script != [] && Fails(script[0]) {
      var left := (maxRetries + 1) / 2 - calls;
      PlayFrom(script[1..], maxRetries, calls + 1);
      if left <= |script| && forall i :: 0 <= i < left ==> Fails(script[i]) {
        assert forall i :: 0 <= i < left - 1 ==> script[1..][i] == script[i + 1];
      }
      if left - 1 <= |script[1..]| && forall i :: 0 <= i < left - 1 ==> Fails(script[1..][i]) {
        forall i | 0 <= i < left
          ensures Fails(script[i])
        {
          assert i > 0 ==> script[i] == script[1..][i - 1];
        }
      }
    }
  }

  /**
   * With a limit M > 0 the loop ends after at most ceil(M/2) calls, hence at most M; it gives up
   * exactly when that many rounds in a row fail undisturbed, and has then made exactly that many calls.
   */
  lemma RetryBound(script: seq<Round>, maxRetries: nat)
    requires maxRetries > 0
    ensures var (result, calls) := Play(script, maxRetries, 0);
            var half := (maxRetries + 1) / 2;
            && calls <= half <= maxRetries
            && (result == GaveUp <==> half <= |script| && forall i :: 0 <= i < half ==> Fails(script[i]))
            && (result == GaveUp ==> calls == half)
  {
    PlayFrom(script, maxRetries, 0);
  }

  /** What the loop returns at a round that ends it, after `calls` reconnect calls. */
  predicate EndsAt(script: seq<Round>, maxRetries: nat, k: nat, calls: nat, result: Result, total: nat)
    requires k <= |script|
  {
    if maxRetries > 0 && 2 * calls >= maxRetries then result == GaveUp && total == calls
    else if k == |script| then result == ContextError && total == calls
    else
      var r := script[k];
      && (r.wait == ContextDone ==> result == ContextError && total == calls)
      && (r.wait == StopRequested ==> result == Stopped && total == calls)
      && (r.wait == Nothing && r.connects ==> result == Reconnected && total == calls + 1)
      && (r.wait == Nothing && !r.connects && r.after == ContextDone ==> result == ContextError && total == calls + 1)
      && (r.wait == Nothing && !r.connects && r.after == StopRequested ==> result == Stopped && total == calls + 1)
      && !Fails(r)
  }

  /** The loop ends at the first round that does not fail undisturbed, unless the limit is reached before. */
  lemma {:induction false} PlayEnds(script: seq<Round>, maxRetries: nat, calls: nat) returns (k: nat)
    ensures k <= |script| && forall i :: 0 <= i < k ==> Fails(script[i])
    ensures k > 0 && maxRetries > 0 ==> 2 * (calls + k - 1) < maxRetries
    ensures var (result, total) := Play(script, maxRetries, calls);
            EndsAt(script, maxRetries, k, calls + k, result, total)
    decreases |script|
  {
    if (maxRetries > 0 && 2 * calls >= maxRetries) || script == [] || !Fails(script[0]) {
      k := 0;
    } else {
      var k' := PlayEnds(script[1..], maxRetries, calls + 1);
      k := k' + 1;
      forall i | 0 <= i < k
        ensures Fails(script[i])
      {
        assert i > 0 ==> script[i] == script[1..][i - 1];
      }
      assert k < |script| ==> script[k] == script[1..][k'];
    }
  }

  /** Rounds 0 to k-1 fail undisturbed and the limit, if there is one, allows the next. */
  predicate Reaches(script: seq<Round>, maxRetries: nat, k: nat) {
    k <= |script| && (forall i :: 0 <= i < k ==> Fails(script[i])) && (maxRetries == 0 || 2 * k < maxRetries)
  }

  /** The first round that does not fail undisturbed is the one the loop ends at. */
  lemma EndsHere(script: seq<Round>, maxRetries: nat, k: nat, end: nat)
    requires Reaches(script, maxRetries, k) && (k == |script| || !Fails(script[k]))
    requires end <= |script| && forall i :: 0 <= i < end ==> Fails(script[i])
    requires end == |script| || !Fails(script[end]) || (maxRetries > 0 && 2 * end >= maxRetries)
    ensures end == k
  {
  }

  /**
   * For every limit, none (0) included: the loop succeeds with the (k+1)-st call exactly if k rounds
   * fail undisturbed, the next one is waited out and connects, and the limit still allows it.
   */
  lemma ReconnectedIff(script: seq<Round>, maxRetries: nat, k: nat)
    ensures Play(script, maxRetries, 0) == (Reconnected, k + 1) <==>
              && k < |script| && (forall i :: 0 <= i < k ==> Fails(script[i]))
              && script[k].wait == Nothing && script[k].connects
              && (maxRetries == 0 || 2 * k < maxRetries)
  {
    var end := PlayEnds(script, maxRetries, 0);
    if k < |script| && Reaches(script, maxRetries, k) && !Fails(script[k]) {
      EndsHere(script, maxRetries, k, end);
    }
  }

  /** The signal that ends a round, while waiting or after a failed call. */
  predicate Signals(r: Round, s: Signal) {
    r.wait == s || (r.wait == Nothing && !r.connects && r.after == s)
  }

  predicate SignalledAt(script: seq<Round>, maxRetries: nat, k: nat, s: Signal) {
    k < |script| && Reaches(script, maxRetries, k) && Signals(script[k], s)
  }

  /**
   * How the loop ends otherwise: by the first signal, told apart, or by the context once every round has
   * failed. Without a limit it never gives up.
   */
  lemma EndedIff(script: seq<Round>, maxRetries: nat)
    ensures var result := Play(script, maxRetries, 0).0;
            && (result == Stopped <==> exists k :: SignalledAt(script, maxRetries, k, StopRequested))
            && (result == ContextError <==>
                  Reaches(script, maxRetries, |script|) || exists k :: SignalledAt(script, maxRetries, k, ContextDone))
            && (result == GaveUp ==> maxRetries > 0)
  {
    var end := PlayEnds(script, maxRetries, 0);
    forall k, s | SignalledAt(script, maxRetries, k, s) && s != Nothing
      ensures end == k
    {
      EndsHere(script, maxRetries, k, end);
    }
    if Reaches(script, maxRetries, |script|) {
      EndsHere(script, maxRetries, |script|, end);
    }
    assert SignalledAt(script, maxRetries, end, StopRequested) || Play(script, maxRetries, 0).0 != Stopped;
    assert SignalledAt(script, maxRetries, end, ContextDone) || Reaches(script, maxRetries, |script|)
           || Play(script, maxRetries, 0).0 != ContextError;
  }

  /** So a documented limit of M calls is what a run that gives up makes only for M = 1. */
  lemma LimitReachedIff(script: seq<Round>, maxRetries: nat)
    requires maxRetries > 0 && Play(script, maxRetries, 0).0 == GaveUp
    ensures Play(script, maxRetries, 0).1 == maxRetries <==> maxRetries == 1
  {
    RetryBound(script, maxRetries);
  }

  /** A limit of two: one failing round, and the loop gives up after a single call. */
  lemma LimitOfTwo()
    ensures Play([Round(Nothing, false, Nothing)], 2, 0) == (GaveUp, 1)
  {
    assert [Round(Nothing, false, Nothing)][1..] == [];
  }

  class Reconnector {
    const cfg: Config
    var attempts: nat
    var isRunning: bool
    var lastBackoff: real
    var stoppedClosed: bool            // stoppedCh has been closed; it is made only once
    ghost var backoffs: seq<real>      // handed out since the last reset

    ghost predicate Valid()
      reads this
    {
      && Sane(cfg)
      && InEnvelope(cfg, lastBackoff, |backoffs|)
      && (backoffs != [] ==> lastBackoff > 0.0 && lastBackoff == backoffs[|backoffs| - 1])
      && forall i :: 0 <= i < |backoffs| ==> InEnvelope(cfg, backoffs[i], i + 1)
    }

    constructor (cfg: Config)
      requires Sane(cfg)
      ensures Valid() && !isRunning && !stoppedClosed && backoffs == [] && this.cfg == cfg
    {
      this.cfg := cfg;
      attempts, isRunning, lastBackoff, stoppedClosed, backoffs := 0, false, 0.0, false, [];
    }

    method Reset()
      requires Sane(cfg)
      modifies `attempts, `lastBackoff, `backoffs
      ensures Valid() && attempts == 0 && backoffs == []
    {
      attempts, lastBackoff, backoffs := 0, 0.0, [];
    }

    method PeekNextBackoff() returns (next: real)
      ensures next == Peek(cfg, lastBackoff)
      ensures lastBackoff == 0.0 ==> next == cfg.min
      ensures lastBackoff != 0.0 ==>
                next == if lastBackoff * cfg.factor > cfg.max then cfg.max else lastBackoff * cfg.factor
    {
      if lastBackoff == 0.0 {
        return cfg.min;
      }
      next := lastBackoff * cfg.factor;
      if next > cfg.max {
        next := cfg.max;
      }
    }

    /** `sin` stands for math.Sin(attempts * 7). */
    method NextBackoff(sin: real) returns (backoff: real)
      requires Valid() && -1.0 <= sin <= 1.0
      modifies `attempts, `lastBackoff, `backoffs
      ensures Valid() && attempts == old(attempts) + 1
      ensures backoffs == old(backoffs) + [backoff] && lastBackoff == backoff
      ensures Near(Peek(cfg, old(lastBackoff)), cfg.max, backoff)
      ensures backoff == WithJitter(Peek(cfg, old(lastBackoff)), sin, cfg.max)
    {
      attempts := attempts + 1;
      Raise();
      PeekPositive(cfg, old(lastBackoff));
      AddJitter(sin);
      NextInEnvelope(cfg, |backoffs|, old(lastBackoff), lastBackoff);
      backoffs := backoffs + [lastBackoff];
      return lastBackoff;
    }

    /** The exponential step of nextBackoff. */
    method Raise()
      requires Sane(cfg)
      modifies `lastBackoff
      ensures lastBackoff == Peek(cfg, old(lastBackoff))
    {
      if lastBackoff == 0.0 {
        lastBackoff := cfg.min;
      } else {
        var next := lastBackoff * cfg.factor;
        if next > cfg.max {
          next := cfg.max;
        }
        lastBackoff := next;
      }
    }

    /** The jitter and the cap that follow it. */
    method AddJitter(sin: real)
      requires 0.0 < lastBackoff <= cfg.max && -1.0 <= sin <= 1.0
      modifies `lastBackoff
      ensures Near(old(lastBackoff), cfg.max, lastBackoff) && lastBackoff > 0.0
      ensures lastBackoff == WithJitter(old(lastBackoff), sin, cfg.max)
    {
      var jitter := lastBackoff * 0.25 * (sin + 0.5);
      JitterBounds(lastBackoff, sin, jitter);
      lastBackoff := lastBackoff + jitter;
      if lastBackoff > cfg.max {
        lastBackoff := cfg.max;
      }
    }

    /** Start. Its deferred close of stoppedCh panics if an earlier Start has already closed it. */
    method Start(script: seq<Round>, sin: nat -> real) returns (result: Result, calls: nat, panicked: bool)
      requires Valid() && forall i :: -1.0 <= sin(i) <= 1.0
      modifies this
      ensures Valid() && isRunning == old(isRunning)
      ensures old(isRunning) ==> result == AlreadyRunning && calls == 0 && !panicked && backoffs == old(backoffs)
      ensures !old(isRunning) ==> (result, calls) == Play(script, cfg.maxRetries, 0)
      ensures !old(isRunning) ==> stoppedClosed && (panicked <==> old(stoppedClosed))
      ensures !old(isRunning) && result == GaveUp ==> |backoffs| == calls && attempts == 2 * calls
      ensures !old(isRunning) && result == Reconnected ==> backoffs == [] && attempts == 0
    {
      if isRunning {
        return AlreadyRunning, 0, false;
      }
      isRunning := true;
      Reset();
      result, calls := Loop(script, sin);
      isRunning := false;
      panicked := stoppedClosed;
      stoppedClosed := true;
    }

    method Loop(script: seq<Round>, sin: nat -> real) returns (result: Result, calls: nat)
      requires Valid() && attempts == 0 && backoffs == [] && forall i :: -1.0 <= sin(i) <= 1.0
      modifies `attempts, `lastBackoff, `backoffs
      ensures Valid() && (result, calls) == Play(script, cfg.maxRetries, 0)
      ensures result == GaveUp ==> |backoffs| == calls && attempts == 2 * calls
      ensures result == Reconnected ==> backoffs == [] && attempts == 0
    {
      calls := 0;
      while true
        invariant Valid() && calls <= |script| && attempts == 2 * calls && |backoffs| == calls
        invariant Play(script, cfg.maxRetries, 0) == Play(script[calls..], cfg.maxRetries, calls)
        decreases |script| - calls
      {
        var currentAttempt := attempts;
        if cfg.maxRetries > 0 && currentAttempt >= cfg.maxRetries {
          return GaveUp, calls;
        }
        var backoff := NextBackoff(sin(attempts));
        if calls == |script| {
          return ContextError, calls;
        }
        var round := script[calls];
        assert script[calls..][1..] == script[calls + 1..];
        if round.wait != Nothing {
          return Interrupted(round.wait), calls;
        }
        calls := calls + 1;
        if round.connects {
          Reset();
          return Reconnected, calls;
        }
        attempts := attempts + 1;
        if round.after != Nothing {
          return Interrupted(round.after), calls;
        }
      }
    }
  }
}
