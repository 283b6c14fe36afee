/** Connecting with fallback and failing over: a walk along the server list that never goes back. */
module VpnConnector {
  import opened Net

  datatype Event = Disconnected | Tried(index: nat)

  function Range(lo: nat, hi: nat): (r: seq<nat>)
    requires lo <= hi
    ensures |r| == hi - lo && forall i :: 0 <= i < |r| ==> r[i] == lo + i
  {
    if lo == hi then [] else Range(lo, hi - 1) + [hi - 1]
  }

  /** The first server from `lo` on that can be connected to; n when there is none. */
  function FirstWorking(works: nat -> bool, lo: nat, n: nat): (k: nat)
    requires lo <= n
    ensures lo <= k <= n && (k < n ==> works(k))
    decreases n - lo
  {
    if lo == n || works(lo) then lo else FirstWorking(works, lo + 1, n)
  }

  lemma {:induction false} FirstWorkingIsFirst(works: nat -> bool, lo: nat, n: nat, i: nat)
    requires lo <= i < n && works(i)
    ensures FirstWorking(works, lo, n) <= i
    decreases n - lo
  {
    if !works(lo) {
      FirstWorkingIsFirst(works, lo + 1, n, i);
    }
  }

  /** The indices handed to Connect, in order. */
  function Attempts(log: seq<Event>): seq<nat> {
    if log == [] then []
    else
      var last := log[|log| - 1];
      Attempts(log[..|log| - 1]) + if last.Tried? then [last.index] else []
  }

  /** Before each attempt of a failover the old connection is taken down. */
  function Walk(lo: nat, hi: nat): seq<Event>
    requires lo <= hi
  {
    if lo == hi then [] else Walk(lo, hi - 1) + [Disconnected, Tried(hi - 1)]
  }

  lemma {:induction false} AttemptsAppend(a: seq<Event>, b: seq<Event>)
    ensures Attempts(a + b) == Attempts(a) + Attempts(b)
  {
    if b == [] {
      assert a + b == a;
    } else {
      AttemptsAppend(a, b[..|b| - 1]);
      assert (a + b)[..|a + b| - 1] == a + b[..|b| - 1];
    }
  }

  lemma {:induction false} AttemptsOfWalk(lo: nat, hi: nat)
    requires lo <= hi
    ensures Attempts(Walk(lo, hi)) == Range(lo, hi)
  {
    if lo < hi {
      AttemptsOfWalk(lo, hi - 1);
      AttemptsAppend(Walk(lo, hi - 1), [Disconnected, Tried(hi - 1)]);
      assert [Disconnected, Tried(hi - 1)][..1] == [Disconnected] && [Disconnected][..0] == [];
      assert Attempts([Disconnected, Tried(hi - 1)]) == [hi - 1];
    }
  }

  /** Event by event: before each attempt, and only there, the old connection is taken down. */
  lemma {:induction false} WalkShape(lo: nat, hi: nat, i: nat)
    requires lo <= hi && i < hi - lo
    ensures |Walk(lo, hi)| == 2 * (hi - lo)
    ensures Walk(lo, hi)[2 * i] == Disconnected && Walk(lo, hi)[2 * i + 1] == Tried(lo + i)
  {
    if hi - lo > 1 {
      WalkShape(lo, hi - 1, if i < hi - 1 - lo then i else 0);
    } else {
      assert Walk(lo, lo) == [];
    }
  }

  lemma WalkOneMore(log: seq<Event>, lo: nat, hi: nat)
    requires lo <= hi
    ensures log + Walk(lo, hi) + [Disconnected, Tried(hi)] == log + Walk(lo, hi + 1)
  {
  }

  lemma RangesJoin(lo: nat, mid: nat, hi: nat)
    requires lo <= mid <= hi
    ensures Range(lo, mid) + Range(mid, hi) == Range(lo, hi)
  {
  }

  class Connector {
    var servers: seq<string>
    var currentServerIndex: int
    var cancelled: bool               // the context in use
    var isFailingOver: bool
    var checker: Option<nat>          // the server being monitored
    var connected: Option<nat>        // the server the client is connected to
    var fatal: bool                   // ErrAllServersExhausted is queued
    ghost var log: seq<Event>

    predicate Valid()
      reads `currentServerIndex
    {
      currentServerIndex >= -1
    }

    constructor ()
      ensures Valid() && servers == [] && currentServerIndex == -1 && log == []
      ensures !cancelled && !isFailingOver && checker == None && connected == None && !fatal
    {
      servers, currentServerIndex, log := [], -1, [];
      cancelled, isFailingOver, checker, connected, fatal := false, false, None, None, false;
    }

    /** One Connect of the client; a failed one leaves it disconnected. */
    method TryConnect(index: nat, works: nat -> bool) returns (ok: bool)
      modifies `connected, `log
      ensures ok == works(index) && connected == if ok then Some(index) else None
      ensures log == old(log) + [Tried(index)]
    {
      ok := works(index);
      connected := if ok then Some(index) else None;
      log := log + [Tried(index)];
    }

    method StartHealthMonitoring(index: nat)
      modifies `checker
      ensures checker == Some(index)
    {
      if checker.Some? {
        checker := None;
      }
      checker := Some(index);
    }

    /** Tries the servers in order and stops at the first that works; a cancelled context tries none. */
    method ConnectWithFallback(list: seq<string>, works: nat -> bool) returns (ok: bool)
      requires Valid()
      modifies this
      ensures Valid() && cancelled == old(cancelled) && isFailingOver == old(isFailingOver) && fatal == old(fatal)
      ensures ok <==> !cancelled && FirstWorking(works, 0, |list|) < |list|
      ensures list == [] || cancelled ==> log == old(log) && connected == old(connected)
      ensures list != [] ==> servers == list
      ensures list != [] && !cancelled ==>
                var k := FirstWorking(works, 0, |list|);
                && Attempts(log) == Attempts(old(log)) + Range(0, if k < |list| then k + 1 else k)
                && (k < |list| ==> currentServerIndex == k && connected == Some(k) && checker == Some(k))
                && (k == |list| ==> currentServerIndex == old(currentServerIndex) && connected == None)
    {
      if |list| == 0 {
        return false;
      }
      servers := list;
      for i := 0 to |list|
        invariant servers == list && cancelled == old(cancelled) && isFailingOver == old(isFailingOver)
        invariant fatal == old(fatal) && currentServerIndex == old(currentServerIndex)
        invariant cancelled ==> i == 0
        invariant i == 0 ==> log == old(log) && connected == old(connected)
        invariant i > 0 ==> connected == None
        invariant Attempts(log) == Attempts(old(log)) + Range(0, i)
        invariant FirstWorking(works, 0, |list|) == FirstWorking(works, i, |list|)
      {
        if cancelled {
          return false;
        }
        assert (log + [Tried(i)])[..|log|] == log;
        ok := TryConnect(i, works);
        assert Attempts(log) == Attempts(old(log)) + Range(0, i) + [i];
        if ok {
          currentServerIndex := i;
          StartHealthMonitoring(i);
          return true;
        }
      }
      return false;
    }

    /**
     * performFailover. It goes on to the first later server that works. With no later server it changes
     * nothing except that the context is left cancelled and nothing is queued; with none that works it
     * ends at the last one, disconnected, with the fatal error queued.
     */
    method PerformFailover(works: nat -> bool)
      requires Valid()
      modifies this
      ensures Valid() && servers == old(servers) && isFailingOver == old(isFailingOver)
      ensures old(isFailingOver) ==>
                && log == old(log) && currentServerIndex == old(currentServerIndex) && connected == old(connected)
                && checker == old(checker) && fatal == old(fatal) && cancelled == old(cancelled)
      ensures !old(isFailingOver) && old(currentServerIndex) + 1 >= |servers| ==>
                && log == old(log) && currentServerIndex == old(currentServerIndex) && connected == old(connected)
                && checker == old(checker) && fatal == old(fatal) && cancelled
      ensures !old(isFailingOver) && old(currentServerIndex) + 1 < |servers| ==>
                var first := old(currentServerIndex) + 1;
                var k := FirstWorking(works, first, |servers|);
                && !cancelled
                && (k < |servers| ==>
                      && log == old(log) + Walk(first, k + 1)
                      && currentServerIndex == k && connected == Some(k) && checker == Some(k) && fatal == old(fatal))
                && (k == |servers| ==>
                      && log == old(log) + Walk(first, k)
                      && currentServerIndex == k - 1 && connected == None && checker == None && fatal)
    {
      if isFailingOver {
        return;
      }
      isFailingOver := true;
      cancelled := true;
      WalkOn(works);
      isFailingOver := false;
    }

    method WalkOn(works: nat -> bool)
      requires Valid() && cancelled
      modifies `currentServerIndex, `cancelled, `checker, `connected, `fatal, `log
      ensures Valid()
      ensures old(currentServerIndex) + 1 >= |servers| ==>
                && log == old(log) && currentServerIndex == old(currentServerIndex) && connected == old(connected)
                && checker == old(checker) && fatal == old(fatal) && cancelled
      ensures old(currentServerIndex) + 1 < |servers| ==>
                var first := old(currentServerIndex) + 1;
                var k := FirstWorking(works, first, |servers|);
                && !cancelled
                && (k < |servers| ==>
                      && log == old(log) + Walk(first, k + 1)
                      && currentServerIndex == k && connected == Some(k) && checker == Some(k) && fatal == old(fatal))
                && (k == |servers| ==>
                      && log == old(log) + Walk(first, k)
                      && currentServerIndex == k - 1 && connected == None && checker == None && fatal)
    {
      ghost var first := currentServerIndex + 1;
      while true
        invariant Valid() && first <= currentServerIndex + 1 && fatal == old(fatal)
        invariant first == currentServerIndex + 1 ==>
                    log == old(log) && connected == old(connected) && checker == old(checker) && cancelled
        invariant first < currentServerIndex + 1 ==>
                    !cancelled && connected == None && checker == None && currentServerIndex + 1 < |servers|
        invariant log == old(log) + Walk(first, currentServerIndex + 1)
        invariant currentServerIndex + 1 <= |servers| ==>
                    FirstWorking(works, first, |servers|) == FirstWorking(works, currentServerIndex + 1, |servers|)
        decreases |servers| - currentServerIndex
      {
        if |servers| <= currentServerIndex + 1 {
          return;
        }
        var nextIndex := currentServerIndex + 1;
        if nextIndex >= |servers| {
          return;
        }
        WalkOneMore(old(log), first, nextIndex);
        var ok := MoveTo(nextIndex, works);
        if !ok {
          if currentServerIndex < |servers| - 1 {
            continue;
          } else {
            fatal := true;
            return;
          }
        }
        StartHealthMonitoring(nextIndex);
        return;
      }
    }

    /** Take the old connection down, renew the context, and try the given server. */
    method MoveTo(index: nat, works: nat -> bool) returns (ok: bool)
      modifies `currentServerIndex, `cancelled, `checker, `connected, `log
      ensures currentServerIndex == index && !cancelled && checker == None
      ensures ok == works(index) && connected == if ok then Some(index) else None
      ensures log == old(log) + [Disconnected, Tried(index)]
    {
      if checker.Some? {
        checker := None;
      }
      connected := None;
      log := log + [Disconnected];
      cancelled := false;
      currentServerIndex := index;
      ok := TryConnect(index, works);
    }

    /** One start and any number of failovers: the attempts are 0, 1, 2, ... without a gap or a repeat. */
    method ConnectAndFailOver(list: seq<string>, works: nat -> bool, later: seq<nat -> bool>)
      requires log == [] && currentServerIndex == -1 && connected == None && !cancelled && !isFailingOver
      modifies this
      ensures |Attempts(log)| <= |list| && Attempts(log) == Range(0, |Attempts(log)|)
      ensures FirstWorking(works, 0, |list|) < |list| ==> currentServerIndex + 1 == |Attempts(log)|
      ensures connected.Some? ==> connected.value == currentServerIndex
    {
      if |list| == 0 {
        return;
      }
      var ok := ConnectWithFallback(list, works);
      assert Attempts([]) == [];
      if !ok {
        return;
      }
      for i := 0 to |later|
        invariant servers == list && !isFailingOver && 0 <= currentServerIndex < |list|
        invariant Attempts(log) == Range(0, currentServerIndex + 1)
        invariant connected.Some? ==> connected.value == currentServerIndex
      {
        FailOverOnce(later[i]);
      }
    }

    method FailOverOnce(works: nat -> bool)
      requires !isFailingOver && 0 <= currentServerIndex < |servers|
      requires Attempts(log) == Range(0, currentServerIndex + 1)
      requires connected.Some? ==> connected.value == currentServerIndex
      modifies this
      ensures servers == old(servers) && !isFailingOver && 0 <= currentServerIndex < |servers|
      ensures Attempts(log) == Range(0, currentServerIndex + 1)
      ensures connected.Some? ==> connected.value == currentServerIndex
    {
      ghost var before, from := log, currentServerIndex + 1;
      PerformFailover(works);
      if from < |servers| {
        var to := currentServerIndex + 1;
        AttemptsOfWalk(from, to);
        AttemptsAppend(before, Walk(from, to));
        RangesJoin(0, from, to);
      }
    }
  }
}
