// How requests get their turn once polls return: a timeout gives up what came to
// its deadline, and a full limit of those that waited is tried. Nothing makes a
// poll return by then (module Waits), so a request may also wait forever.

module Turns {
  import opened Systems
  import opened Invariants
  import opened Executions
  import opened Sweeps
  import opened Openings

  // ------------------------------------------------ a timeout leaves nothing late

  /** After a timeout everything in the pool has its deadline still before it, whatever the sweep set off. */
  lemma TimeoutClears(env: Environment, s: System, time: int)
    requires Inv(s)
    ensures InTime(Run(env, s, Timeouts(s, time)), time)
  {
    hide Inv, Run, Step, Evolves, Raised, Expiring, Sorted, InTime, Timeouts;
    TimeoutRun(env, s, time);
    var ticked := Step(env, s, Tick(time));
    BothCleared(env, ticked, ticked.clock);
    NoneLate(SweptBoth(env, ticked, ticked.clock), ticked.clock);
    InTimeEarlier(SweptBoth(env, ticked, ticked.clock), time, ticked.clock);
  }

  // ------------------------------------------------ turns, when polls return

  /** Between `s` and `t`, all that ran at `s` came to its deadline, and nothing at `t` is past its own. */
  ghost predicate Turned(s: System, t: System, time: int) {
    Evolves(s, t) && s.clock + s.timeout <= time && InTime(t, time)
  }

  /** A timeout makes a turn, once it reads a time so much later. */
  lemma TimeoutTurns(env: Environment, s: System, mid: System, time: int)
    requires Inv(s) && Inv(mid) && Evolves(s, mid) && s.clock + s.timeout <= time
    ensures Turned(s, Run(env, mid, Timeouts(mid, time)), time)
  {
    TimeoutClears(env, mid, time);
    var t := Run(env, mid, Timeouts(mid, time));
    assert Evolves(mid, t);
    hide Inv, Evolves, Run, Timeouts, InTime;
    EvolvesTransitively(s, mid, t);
  }

  /** Then what ran at `s` is gone, and a full limit of requests was taken from the queue, or all there were. */
  lemma TurnsTaken(s: System, t: System, time: int)
    requires Inv(s) && Inv(t) && Turned(s, t, time)
    ensures |s.attempts| + s.limit <= |t.attempts| || t.queue == []
  {
    hide Wired, Replied, Blamed, Fired;
    forall i: nat | i < |s.conns| ensures i !in t.pool {
      assert t.conns[i].deadline == s.conns[i].deadline <= s.clock + s.timeout;
    }
    DistinctWithin(t.pool, |s.conns|, |t.conns|);
  }

  /** Per turn, for as many as polls bring about: after k of them the first k times the limit have been tried. */
  lemma {:induction false} TriedPerTurn(ss: seq<System>, times: seq<int>, i: nat)
    requires |ss| == |times| + 1 && (forall k :: 0 <= k < |ss| ==> Inv(ss[k]))
    requires forall k :: 0 <= k < |times| ==> Turned(ss[k], ss[k + 1], times[k])
    requires i < |ss[0].arrivals| && i < |ss[0].attempts| + |times| * ss[0].limit
    ensures i < |ss[|ss| - 1].attempts|
  {
    hide Inv, Evolves, Turned;
    if times != [] {
      OneTurn(ss[0], ss[1], times[0]);
      assert |times| * ss[0].limit == ss[0].limit + (|times| - 1) * ss[0].limit;
      forall k | 0 <= k < |times[1..]| ensures Turned(ss[1..][k], ss[1..][k + 1], times[1..][k]) {
        assert ss[1..][k] == ss[k + 1] && ss[1..][k + 1] == ss[k + 2] && times[1..][k] == times[k + 1];
      }
      TriedPerTurn(ss[1..], times[1..], i);
    }
  }

  lemma OneTurn(s: System, t: System, time: int)
    requires Inv(s) && Inv(t) && Turned(s, t, time)
    ensures t.limit == s.limit && |s.arrivals| <= |t.arrivals|
    ensures |s.attempts| + s.limit <= |t.attempts| || |t.attempts| == |t.arrivals|
  {
    TurnsTaken(s, t, time);
    ServedInOrder(t);
  }
}
