// The loop's calling half (src/loop.cpp:9-35, 93-102, 153-211): dispatching what
// poll reports, sweeping for timeouts, and running until nothing is left; and
// how it all is put together (src/dote.cpp).

module Dotes {
  import opened HandlerMaps
  import opened ForwarderConfigs
  import opened Connections
  import opened Loops
  import C = ClientForwarding
  import S = Systems
  import opened Invariants
  import E = Executions
  import opened Sweeps
  import opened Openings
  import opened Waits
  import K = Events
  import opened Polling

  /** The keys that an iterator has before it, its own included. */
  function Ahead(fns: map<int, Entry>, it: Option<int>): set<int> {
    set k | k in fns && it.Some? && it.value <= k
  }

  lemma AheadShrinks(fns: map<int, Entry>, h: int, next: Option<int>)
    requires h in fns && (next.Some? ==> h < next.value)
    ensures Ahead(fns, next) < Ahead(fns, Some(h))
  {
    assert h in Ahead(fns, Some(h)) && h !in Ahead(fns, next);
  }

  // ------------------------------------------------ runs put together

  lemma BothSwept(env: S.Environment, s: S.System, half: S.System, t: S.System, now: int)
    requires Inv(s) && Inv(half) && Inv(t)
    requires var reading := Expiring(s.loop, now, false);
             && half == E.Run(env, s, Raised(Sorted(reading)))
             && forall w: bool :: Expiring(half.loop, now, w) == Expiring(s.loop, now, w) - reading
    requires var writing := Expiring(half.loop, now, true);
             && t == E.Run(env, half, Raised(Sorted(writing)))
             && forall w: bool :: Expiring(t.loop, now, w) == Expiring(half.loop, now, w) - writing
    ensures t == SweptBoth(env, s, now) && half == AfterReads(env, s, now) && InTime(t, now)
    ensures SweptWait(env, s, now) == Milliseconds(now, Soonest(Swept(half.loop, false)), Soonest(Swept(t.loop, true)))
  {
    hide Inv, E.Run, Evolves, Raised, Sorted, Expiring, InTime, Soonest, Milliseconds;
    NoneLate(t, now);
  }

  /** The clock is read, and then both maps are swept. */
  lemma TimeoutParts(env: S.Environment, s: S.System, time: int)
    requires Inv(s)
    ensures var ticked := E.Step(env, s, E.Tick(time));
            && 0 <= ticked.clock && time <= ticked.clock
            && E.Run(env, s, Timeouts(s, time)) == SweptBoth(env, ticked, ticked.clock)
            && PollWait(env, s, time) == SweptWait(env, ticked, ticked.clock)
  {
    assert 0 <= s.clock <= E.Step(env, s, E.Tick(time)).clock;
    hide Inv, Evolves, E.Step, AfterReads, SweptBoth, SweptWait;
    TimeoutRun(env, s, time);
  }

  /** One turn of the sweep that passes a handler. */
  lemma TurnPasses(env: S.Environment, start: S.System, s: S.System, now: int, writing: bool, excepted: seq<int>,
                   handle: int, earliest: int)
    requires Inv(start) && Inv(s) && 0 <= now && handle in Swept(s.loop, writing)
    requires Sweeping(env, start, s, now, writing, excepted, Some(handle))
    requires Passing(Swept(s.loop, writing), now, Some(handle), earliest)
    ensures var fns := Swept(s.loop, writing);
            var next := Next(fns.Keys, Some(handle));
            handle !in Expiring(s.loop, now, writing) || handle in excepted ==>
              && (next.Some? ==> next.value in fns)
              && Sweeping(env, start, s, now, writing, excepted, next)
              && Passing(fns, now, next, Sooner(earliest, fns[handle].deadline))
              && Ahead(fns, next) < Ahead(fns, Some(handle))
              && Sooner(earliest, fns[handle].deadline)
                 == if earliest == 0 || fns[handle].deadline < earliest then fns[handle].deadline else earliest
  {
    hide Inv, Evolves, E.Run, Raised, Passing;
    var fns := Swept(s.loop, writing);
    var next := Next(fns.Keys, Some(handle));
    if handle !in Expiring(s.loop, now, writing) || handle in excepted {
      SweepPasses(env, start, s, now, writing, excepted, handle, next);
      NotExpired(env, start, s, now, writing, excepted, handle);
      PassingPasses(fns, now, handle, earliest, next);
      AheadShrinks(fns, handle, next);
    }
  }

  lemma NotExpired(env: S.Environment, start: S.System, s: S.System, now: int, writing: bool, excepted: seq<int>,
                   handle: int)
    requires Inv(start) && Sweeping(env, start, s, now, writing, excepted, Some(handle))
    requires handle in Swept(s.loop, writing) && (handle !in Expiring(s.loop, now, writing) || handle in excepted)
    ensures Swept(s.loop, writing)[handle].deadline == 0 || now < Swept(s.loop, writing)[handle].deadline
  {
    hide Inv, Evolves, E.Run, Raised;
    assert handle in excepted ==> handle in Elements(excepted);
    assert Expiring(s.loop, now, writing) == Expiring(start.loop, now, writing) - Elements(excepted);
  }

  /** One turn of the sweep that raises an exception. */
  lemma TurnRaises(env: S.Environment, start: S.System, s: S.System, now: int, writing: bool, excepted: seq<int>,
                   handle: int, earliest: int)
    requires Inv(start) && Inv(s) && handle in Expiring(s.loop, now, writing)
    requires Sweeping(env, start, s, now, writing, excepted, Some(handle))
    requires Passing(Swept(s.loop, writing), now, Some(handle), earliest)
    ensures var t := E.Step(env, s, E.Failed(handle));
            var next := Next(Swept(t.loop, writing).Keys, None);
            && (next.Some? ==> next.value in Swept(t.loop, writing))
            && Sweeping(env, start, t, now, writing, excepted + [handle], next)
            && Passing(Swept(t.loop, writing), now, next, earliest)
            && Late(t, now) < Late(s, now)
  {
    hide Inv, Evolves, E.Run, E.Step, Raised, Sweeping, Passing, Expiring, Late;
    var t := E.Step(env, s, E.Failed(handle));
    var next := Next(Swept(t.loop, writing).Keys, None);
    SweepRaises(env, start, s, now, writing, excepted, handle, next);
    DeadlinesToCome(env, s, now, writing, handle);
    PassingRestarts(Swept(s.loop, writing), Swept(t.loop, writing), now, Some(handle), earliest, next);
  }

  lemma ReportedParts(h: int, r: Report)
    ensures Reported(h, r)
            == ((if r.input then [E.Readable(h, r.reading)] else [])
                + (if r.output then [E.Writable(h, r.writing)] else []))
               + (if r.failed then [E.Failed(h)] else [])
  {
  }

  lemma ReportedNone(env: S.Environment, s: S.System, fds: seq<PollFd>, p: Poll)
    requires Inv(s)
    ensures E.AllAdmissible(ReportedUpTo(fds, p, 0)) && E.Run(env, s, ReportedUpTo(fds, p, 0)) == s
  {
    E.RunNone(env, s);
  }

  /** The next entry of the poll list. */
  lemma ReportedNext(env: S.Environment, s: S.System, fds: seq<PollFd>, p: Poll, i: nat)
    requires Inv(s) && p.Fine() && i < |fds|
    ensures var before, fd := E.Run(env, s, ReportedUpTo(fds, p, i)), fds[i].fd;
            && (fd in p.ready ==> p.ready[fd].Fine())
            && E.AllAdmissible(ReportedUpTo(fds, p, i + 1))
            && E.Run(env, s, ReportedUpTo(fds, p, i + 1))
               == if fd in p.ready then E.Run(env, before, Reported(fd, p.ready[fd])) else before
  {
    hide Inv, E.Step, E.Run, Evolves, Reported, Report.Fine, E.Admissible;
    var before := ReportedUpTo(fds, p, i);
    if fds[i].fd in p.ready {
      E.RunInParts(env, s, before, Reported(fds[i].fd, p.ready[fds[i].fd]));
    } else {
      assert before + [] == before;
    }
  }

  lemma ReportedDone(fds: seq<PollFd>, p: Poll)
    ensures ReportedAll(fds, p) == ReportedUpTo(fds, p, |fds|)
  {
  }

  lemma HandledParts(env: S.Environment, s: S.System, fds: seq<PollFd>, p: Poll)
    requires Inv(s) && p.Fine()
    ensures var events := if p.retire then [E.Retire] else [];
            E.AllAdmissible(events)
            && E.Run(env, s, Handled(fds, p)) == E.Run(env, E.Run(env, s, ReportedAll(fds, p)), events)
  {
    hide Inv, E.Step, E.Run, Evolves, ReportedAll, Poll.Fine;
    E.RunInParts(env, s, ReportedAll(fds, p), if p.retire then [E.Retire] else []);
  }

  lemma PollsDistinct(l: HandlerMaps.Handlers, fds: seq<PollFd>)
    requires Polls(l, fds)
    ensures DistinctFds(fds)
  {
  }

  /** When the list for the next poll is empty, nothing is left in the maps, although a sweep came in between. */
  lemma EmptyListDrains(env: S.Environment, s: S.System, time: int, polls: seq<Poll>, lists: seq<seq<PollFd>>,
                        t: S.System)
    requires Inv(s) && Ran(env, s, time, polls, lists, [], t)
    ensures t.loop == Listening({})
  {
    hide Inv, Evolves, E.Run, Timeouts, Rounds, HalfRound, Polls, Poll.Fine, Listed, Listening;
    var filling := Filling(env, s, time, polls, lists);
    NothingPolled(filling.loop);
    if polls == [] {
      assert t == filling by {
        RanFilled(env, s, time, t);
      }
    } else {
      var n := |polls| - 1;
      assert polls == polls[..n] + [polls[n]] && lists == lists[..n] + [lists[n]];
      RoundParts(env, s, time, polls[..n], lists[..n], polls[n], lists[n]);
      NothingExpires(env, filling, polls[n].time);
    }
  }

  lemma RanFilled(env: S.Environment, s: S.System, time: int, t: S.System)
    requires Inv(s) && t == E.Run(env, s, Rounds(env, s, time, [], []))
    ensures t == Filling(env, s, time, [], [])
  {
  }

  lemma FineAt(polls: seq<Poll>, k: nat)
    requires AllFine(polls) && k < |polls|
    ensures polls[k].Fine() && polls[..k] + [polls[k]] == polls[..k + 1]
  {
  }

  /** An empty poll list means there is nothing to poll for. */
  lemma NothingPolled(l: HandlerMaps.Handlers)
    requires Polls(l, [])
    ensures l == Listening({})
  {
    forall h ensures h !in l.readFns && h !in l.writeFns && h !in l.exceptFns {
      assert !Lists([], h);
    }
    assert l.readFns == map[] && l.writeFns == map[] && l.exceptFns == map[];
  }

  /** With no handlers there is nothing to raise. */
  lemma NothingExpires(env: S.Environment, s: S.System, time: int)
    requires Inv(s)
    ensures s.loop == Listening({}) ==> E.Run(env, s, Timeouts(s, time)).loop == s.loop
  {
    if s.loop == Listening({}) {
      var ticked, now := E.Step(env, s, E.Tick(time)), S.Max(s.clock, time);
      assert Expiring(s.loop, now, false) == {} && Expiring(s.loop, now, true) == {};
      assert Expiring(s.loop, now, true) - Expiring(s.loop, now, false) == {};
      assert Raised(Sorted({})) == [];
      assert ticked == s.(clock := now);
      TimeoutRun(env, s, time);
      E.RunNone(env, ticked);
    }
  }

  // ------------------------------------------------ the program

  /** The state before listen. */
  ghost predicate Unstarted(s: S.System) {
    s.clock >= 0 && s == E.Start({}, s.configured, s.timeout, s.limit, s.clock)
  }

  lemma StartParts(s: S.System)
    requires Unstarted(s)
    ensures s.loop == Listening({}) && s.servers == {}
  {
  }

  lemma StartListens(env: S.Environment, s: S.System, handles: set<int>)
    requires Unstarted(s) && s.timeout >= 1
    ensures var t := s.(loop := Listening(handles), servers := handles);
            && t == E.Start(handles, s.configured, s.timeout, s.limit, s.clock)
            && Inv(t) && E.Step(env, t, E.Retire) == s
  {
    hide Inv, Evolves;
    E.StartHolds(handles, s.configured, s.timeout, s.limit, s.clock);
  }

  /** The handles of the sockets that could be bound. */
  function Handles(bound: seq<Option<int>>): set<int> {
    set i | 0 <= i < |bound| && bound[i].Some? :: bound[i].value
  }

  /** The handlers of listening sockets alone. */
  function Listening(handles: set<int>): HandlerMaps.Handlers {
    HandlerMaps.Handlers(map h | h in handles :: Entry(Serve, 0), map[], map[])
  }

  lemma NobodyListens()
    ensures Handles([]) == {} && Listening({}) == HandlerMaps.Handlers(map[], map[], map[])
  {
  }

  lemma ListensNext(bound: seq<Option<int>>, i: nat)
    requires i < |bound|
    ensures Handles(bound[..i + 1])
            == if bound[i].Some? then Handles(bound[..i]) + {bound[i].value} else Handles(bound[..i])
    ensures bound[i].Some? ==>
              RegisterRead(Listening(Handles(bound[..i])), bound[i].value, Entry(Serve, 0)).loop
              == Listening(Handles(bound[..i + 1]))
  {
    var before, after := bound[..i], bound[..i + 1];
    assert forall k :: 0 <= k < i ==> after[k] == before[k];
    forall h ensures h in Handles(after) <==> h in Handles(before) || bound[i] == Some(h) {
      if h in Handles(before) {
        var k :| 0 <= k < |before| && before[k] == Some(h);
        assert after[k] == Some(h);
      }
      assert after[i] == bound[i];
    }
  }

  class Dote {
    const loop: Loop
    const config: ForwarderConfig
    const forwarders: C.ClientForwarders

    /** The parts belong together, and the invariant holds. */
    ghost predicate Healthy()
      reads forwarders, loop, config, forwarders.conns
    {
      forwarders.Valid() && forwarders.loop == loop && forwarders.config == config && Inv(forwarders.Value())
    }

    ghost function Value(): S.System
      reads forwarders, forwarders.loop, forwarders.config, forwarders.conns
    {
      forwarders.Value()
    }

    ghost function Env(): S.Environment {
      forwarders.env
    }

    lemma HealthyInv()
      requires Healthy()
      ensures Inv(Value()) && forwarders.loop == loop && forwarders.config == config
      ensures Value().loop == loop.Value() && Value().clock == forwarders.clock
    {
    }

    lemma IsHealthy()
      requires forwarders.Valid() && forwarders.loop == loop && forwarders.config == config && Inv(Value())
      ensures Healthy()
    {
    }

    // ---------------------------------------------- starting and stopping

    /** The loop, the configuration and the pool. */
    constructor (configured: seq<Forwarder>, timeout: nat, limit: nat, env: S.Environment, clock: nat)
      requires timeout >= 1
      ensures Healthy() && Env() == env && fresh(loop) && fresh(config) && fresh(forwarders) && forwarders.repr == {}
      ensures Value() == E.Start({}, configured, timeout, limit, clock)
    {
      var newLoop := new Loop();
      var newConfig := new ForwarderConfig();
      loop, config := newLoop, newConfig;
      forwarders := new C.ClientForwarders(newLoop, newConfig, limit, env, clock, configured);
      new;
      hide Inv;
      E.StartHolds({}, configured, timeout, limit, clock);
      SetForwarders(configured);
      config.SetTimeout(timeout);
      assert Value() == E.Start({}, configured, timeout, limit, clock);
    }

    method SetForwarders(configured: seq<Forwarder>)
      modifies config
      ensures config.forwarders == configured && config.timeout == old(config.timeout)
    {
      config.Clear();
      for i := 0 to |configured|
        invariant config.forwarders == configured[..i] && config.timeout == old(config.timeout)
      {
        config.AddForwarder(configured[i]);
      }
    }

    /** addServer, for a socket that could be bound. */
    method AddServer(handle: int)
      requires forwarders.Valid()
      modifies loop, forwarders`servers
      ensures forwarders.Valid()
      ensures forwarders.servers == old(forwarders.servers) + {handle}
      ensures loop.Value() == RegisterRead(old(loop.Value()), handle, Entry(Serve, 0)).loop
    {
      var claim := loop.RegisterRead(handle, Serve, 0);
      forwarders.servers := forwarders.servers + {handle};
    }

    /** The loop over the servers to listen on. */
    method Bind(bound: seq<Option<int>>) returns (ok: bool)
      requires forwarders.Valid() && forwarders.loop == loop && forwarders.config == config
      requires loop.Value() == Listening({}) && forwarders.servers == {}
      modifies loop, forwarders`servers
      ensures forwarders.Valid()
      ensures ok <==> forall i :: 0 <= i < |bound| ==> bound[i].Some?
      ensures Value() == old(Value()).(loop := Listening(Handles(bound)), servers := Handles(bound))
    {
      hide C.Values, C.Relayed, Handles, Listening;
      ok := true;
      NobodyListens();
      for i := 0 to |bound|
        invariant forwarders.Valid()
        invariant ok <==> forall k :: 0 <= k < i ==> bound[k].Some?
        invariant loop.Value() == Listening(Handles(bound[..i])) && forwarders.servers == Handles(bound[..i])
      {
        ListensNext(bound, i);
        if bound[i].None? {
          ok := false;
        } else {
          AddServer(bound[i].value);
        }
      }
      assert bound[..|bound|] == bound;
    }

    /** listen, with the handles of the sockets, where they could be bound. */
    method Listen(bound: seq<Option<int>>) returns (ok: bool)
      requires Healthy()
      requires Unstarted(Value())
      modifies loop, forwarders`servers
      ensures Healthy()
      ensures ok <==> forall i :: 0 <= i < |bound| ==> bound[i].Some?
      ensures Value() == if ok then old(Value()).(loop := Listening(Handles(bound)), servers := Handles(bound))
                         else old(Value())
    {
      HealthyInv();
      StartParts(Value());
      hide *;
      ghost var s := Value();
      ok := Bind(bound);
      StartListens(Env(), s, Handles(bound));
      IsHealthy();
      if !ok {
        Shutdown();
      }
    }

    /** Dote::shutdown: the servers' sockets and registrations go. */
    method Shutdown()
      requires Healthy()
      modifies loop, forwarders`servers
      ensures Healthy() && Value() == E.Step(Env(), old(Value()), E.Retire)
    {
      hide Inv, Evolves, C.Values, C.Relayed;
      ghost var s := Value();
      loop.readFns := map h | h in loop.readFns && !loop.readFns[h].callback.Serve? :: loop.readFns[h];
      forwarders.servers := {};
      assert Value() == E.Step(Env(), s, E.Retire);
    }

    // ---------------------------------------------- calling back

    /** callCallback on the read handlers. */
    method CallRead(handle: int, o: S.Outcome)
      requires Healthy() && R.Safe(o.data) && E.Admissible(E.Readable(handle, o))
      modifies forwarders, loop, config`forwarders, forwarders.repr
      ensures Healthy() && (forall c :: c in forwarders.repr && c !in old(forwarders.repr) ==> fresh(c))
      ensures Value() == E.Step(Env(), old(Value()), E.Readable(handle, o))
    {
      hide Inv, Evolves, R.Safe, S.Invoke;
      ghost var s := Value();
      if handle in loop.readFns {
        E.BoundFits(s, handle);
        forwarders.Invoke(loop.readFns[handle].callback, o);
      }
      assert Value() == E.Step(Env(), s, E.Readable(handle, o));
    }

    /** callCallback on the write handlers. */
    method CallWrite(handle: int, o: S.Outcome)
      requires Healthy() && R.Safe(o.data) && E.Admissible(E.Writable(handle, o))
      modifies forwarders, loop, config`forwarders, forwarders.repr
      ensures Healthy() && (forall c :: c in forwarders.repr && c !in old(forwarders.repr) ==> fresh(c))
      ensures Value() == E.Step(Env(), old(Value()), E.Writable(handle, o))
    {
      hide Inv, Evolves, R.Safe, S.Invoke;
      ghost var s := Value();
      if handle in loop.writeFns {
        E.BoundFits(s, handle);
        forwarders.Invoke(loop.writeFns[handle].callback, o);
      }
      assert Value() == E.Step(Env(), s, E.Writable(handle, o));
    }

    method RaiseException(handle: int) returns (raised: bool)
      requires Healthy()
      modifies forwarders, loop, config`forwarders, forwarders.repr
      ensures Healthy() && (forall c :: c in forwarders.repr && c !in old(forwarders.repr) ==> fresh(c))
      ensures raised == (handle in old(loop.exceptFns))
      ensures Value() == E.Step(Env(), old(Value()), E.Failed(handle))
    {
      hide Inv, Evolves, R.Safe, S.Invoke;
      ghost var s := Value();
      raised := false;
      if handle in loop.exceptFns {
        E.BoundFits(s, handle);
        R.NothingIsSafe();
        forwarders.Invoke(loop.exceptFns[handle], E.NOTHING);
        raised := true;
      }
      assert Value() == E.Step(Env(), s, E.Failed(handle));
    }

    // ---------------------------------------------- timeouts

    /** The condition of the sweep's loop body, which raises the exception as its last conjunct. */
    method RaiseIfExpired(handle: int, now: int, writing: bool, excepted: seq<int>) returns (ok: bool)
      requires Healthy() && now <= forwarders.clock && handle in Swept(loop.Value(), writing)
      modifies forwarders, loop, config`forwarders, forwarders.repr
      ensures Healthy() && (forall c :: c in forwarders.repr && c !in old(forwarders.repr) ==> fresh(c))
      ensures ok <==> handle in Expiring(old(loop.Value()), now, writing) && handle !in excepted
      ensures Value() == if ok then E.Step(Env(), old(Value()), E.Failed(handle)) else old(Value())
    {
      hide Inv, Evolves, E.Step, Late, C.Values, C.Relayed;
      var deadline := Swept(loop.Value(), writing)[handle].deadline;
      ok := false;
      if deadline != 0 && deadline <= now && handle !in excepted {
        ExpiredIsLate(Value(), now, handle);
        ok := RaiseException(handle);
      }
    }

    /** The loop body of the sweep: it starts over after an exception, and goes on to the next handler otherwise. */
    method Turn(now: int, writing: bool, handle: int, excepted: seq<int>, earliest: int, ghost start: S.System)
      returns (it: Option<int>, noted: seq<int>, sooner: int)
      requires Healthy() && 0 <= now && handle in Swept(loop.Value(), writing)
      requires Inv(start) && Sweeping(Env(), start, Value(), now, writing, excepted, Some(handle))
      requires Passing(Swept(loop.Value(), writing), now, Some(handle), earliest)
      modifies forwarders, loop, config`forwarders, forwarders.repr
      ensures Healthy() && (forall c :: c in forwarders.repr && c !in old(forwarders.repr) ==> fresh(c))
      ensures it.Some? ==> it.value in Swept(loop.Value(), writing)
      ensures Sweeping(Env(), start, Value(), now, writing, noted, it)
      ensures Passing(Swept(loop.Value(), writing), now, it, sooner)
      ensures Late(Value(), now) < Late(old(Value()), now)
              || (Late(Value(), now) == Late(old(Value()), now)
                  && Ahead(Swept(loop.Value(), writing), it) < Ahead(Swept(old(loop.Value()), writing), Some(handle)))
    {
      HealthyInv();
      hide *;
      ghost var s := Value();
      SweepingClock(Env(), start, s, now, writing, excepted, Some(handle));
      var functions := Swept(loop.Value(), writing);
      TurnPasses(Env(), start, s, now, writing, excepted, handle, earliest);
      var ok := RaiseIfExpired(handle, now, writing, excepted);
      HealthyInv();
      noted, sooner := excepted, earliest;
      if ok {
        TurnRaises(Env(), start, s, now, writing, excepted, handle, earliest);
        it := Next(Swept(loop.Value(), writing).Keys, None);
        noted := excepted + [handle];
      } else {
        var thisTime := functions[handle].deadline;
        if earliest == 0 || thisTime < earliest {
          sooner := thisTime;
        }
        it := Next(functions.Keys, Some(handle));
      }
    }

    /**
     * timeout(now, functions): raises the exception of every handle with an
     * expired handler, starting over after each. It ends, and amounts to
     * raising, in order, just those that were expired when it started. What it
     * returns is the earliest deadline beyond all handlers without one.
     */
    method Sweep(now: int, writing: bool) returns (earliest: int)
      requires Healthy() && 0 <= now <= forwarders.clock
      modifies forwarders, loop, config`forwarders, forwarders.repr
      ensures Healthy() && (forall c :: c in forwarders.repr && c !in old(forwarders.repr) ==> fresh(c))
      ensures now <= forwarders.clock
      ensures Value() == E.Run(Env(), old(Value()), Raised(Sorted(Expiring(old(loop.Value()), now, writing))))
      ensures forall w: bool :: Expiring(loop.Value(), now, w)
                                == Expiring(old(loop.Value()), now, w) - Expiring(old(loop.Value()), now, writing)
      ensures earliest == Soonest(Swept(loop.Value(), writing))
    {
      HealthyInv();
      hide *;
      ghost var start := Value();
      earliest := 0;
      var excepted: seq<int> := [];
      var it := Next(Swept(loop.Value(), writing).Keys, None);
      SweepStarts(Env(), start, now, writing, it);
      PassingStarts(Swept(loop.Value(), writing), now, it);
      while it.Some?
        invariant Healthy() && (forall c :: c in forwarders.repr && c !in old(forwarders.repr) ==> fresh(c))
        invariant it.Some? ==> it.value in Swept(loop.Value(), writing)
        invariant Sweeping(Env(), start, Value(), now, writing, excepted, it)
        invariant Passing(Swept(loop.Value(), writing), now, it, earliest)
        decreases Late(Value(), now), Ahead(Swept(loop.Value(), writing), it)
      {
        it, excepted, earliest := Turn(now, writing, it.value, excepted, earliest, start);
      }
      SweepEnds(Env(), start, Value(), now, writing, excepted);
      PassingEnds(Swept(loop.Value(), writing), now, earliest);
    }

    /** The clock is read. */
    method Tick(time: int)
      requires Healthy()
      modifies forwarders
      ensures Healthy() && forwarders.repr == old(forwarders.repr)
      ensures Value() == E.Step(Env(), old(Value()), E.Tick(time))
      ensures forwarders.clock == S.Max(old(forwarders.clock), time)
    {
      hide Inv, Evolves, C.Values, C.Relayed;
      ghost var s := Value();
      forwarders.clock := if forwarders.clock < time then time else forwarders.clock;
      assert Value() == E.Step(Env(), s, E.Tick(time));
    }

    /** What timeout() does once it has read the clock. */
    method SweepBoth(now: int) returns (wait: int)
      requires Healthy() && 0 <= now <= forwarders.clock
      modifies forwarders, loop, config`forwarders, forwarders.repr
      ensures Healthy() && (forall c :: c in forwarders.repr && c !in old(forwarders.repr) ==> fresh(c))
      ensures Value() == SweptBoth(Env(), old(Value()), now) && InTime(Value(), now)
      ensures wait == SweptWait(Env(), old(Value()), now)
    {
      HealthyInv();
      hide *;
      ghost var start := Value();
      var earliestRead := Sweep(now, false);
      ghost var half := Value();
      HealthyInv();
      var earliestWrite := Sweep(now, true);
      HealthyInv();
      BothSwept(Env(), start, half, Value(), now);
      wait := Milliseconds(now, earliestRead, earliestWrite);
    }

    /**
     * timeout(): reads the clock and sweeps both maps. Then nothing in the pool
     * is late. It returns how long the next poll waits, -1 for without limit.
     */
    method Timeout(time: int) returns (wait: int)
      requires Healthy()
      modifies forwarders, loop, config`forwarders, forwarders.repr
      ensures Healthy() && (forall c :: c in forwarders.repr && c !in old(forwarders.repr) ==> fresh(c))
      ensures Value() == E.Run(Env(), old(Value()), Timeouts(old(Value()), time))
      ensures InTime(Value(), time)
      ensures wait == PollWait(Env(), old(Value()), time)
    {
      HealthyInv();
      hide *;
      TimeoutParts(Env(), Value(), time);
      Tick(time);
      HealthyInv();
      var now := forwarders.clock;
      wait := SweepBoth(now);
      InTimeEarlier(Value(), time, now);
    }

    // ---------------------------------------------- dispatching

    /** POLLIN */
    method IfReadable(h: int, r: Report)
      requires Healthy() && r.Fine()
      modifies forwarders, loop, config`forwarders, forwarders.repr
      ensures Healthy() && (forall c :: c in forwarders.repr && c !in old(forwarders.repr) ==> fresh(c))
      ensures var events := if r.input then [E.Readable(h, r.reading)] else [];
              E.AllAdmissible(events) && Value() == E.Run(Env(), old(Value()), events)
    {
      hide Inv, Evolves, E.Step, E.Run, R.Safe;
      E.RunNone(Env(), Value());
      if r.input {
        E.RunOne(Env(), Value(), E.Readable(h, r.reading));
        CallRead(h, r.reading);
      }
    }

    /** POLLOUT */
    method IfWritable(h: int, r: Report)
      requires Healthy() && r.Fine()
      modifies forwarders, loop, config`forwarders, forwarders.repr
      ensures Healthy() && (forall c :: c in forwarders.repr && c !in old(forwarders.repr) ==> fresh(c))
      ensures var events := if r.output then [E.Writable(h, r.writing)] else [];
              E.AllAdmissible(events) && Value() == E.Run(Env(), old(Value()), events)
    {
      hide Inv, Evolves, E.Step, E.Run, R.Safe;
      E.RunNone(Env(), Value());
      if r.output {
        E.RunOne(Env(), Value(), E.Writable(h, r.writing));
        CallWrite(h, r.writing);
      }
    }

    /** POLLERR, POLLHUP or POLLNVAL */
    method IfFailed(h: int, r: Report)
      requires Healthy()
      modifies forwarders, loop, config`forwarders, forwarders.repr
      ensures Healthy() && (forall c :: c in forwarders.repr && c !in old(forwarders.repr) ==> fresh(c))
      ensures var events := if r.failed then [E.Failed(h)] else [];
              E.AllAdmissible(events) && Value() == E.Run(Env(), old(Value()), events)
    {
      hide Inv, Evolves, E.Step, E.Run, R.Safe;
      E.RunNone(Env(), Value());
      if r.failed {
        E.RunOne(Env(), Value(), E.Failed(h));
        var raised := RaiseException(h);
      }
    }

    method IfReady(h: int, r: Report)
      requires Healthy() && r.Fine()
      modifies forwarders, loop, config`forwarders, forwarders.repr
      ensures Healthy() && (forall c :: c in forwarders.repr && c !in old(forwarders.repr) ==> fresh(c))
      ensures var events := (if r.input then [E.Readable(h, r.reading)] else [])
                            + (if r.output then [E.Writable(h, r.writing)] else []);
              E.AllAdmissible(events) && Value() == E.Run(Env(), old(Value()), events)
    {
      HealthyInv();
      hide *;
      ghost var start := Value();
      IfReadable(h, r);
      IfWritable(h, r);
      E.RunInParts(Env(), start, if r.input then [E.Readable(h, r.reading)] else [],
                   if r.output then [E.Writable(h, r.writing)] else []);
    }

    /** What is done for one handle, by what its revents say. */
    method DispatchOne(h: int, r: Report)
      requires Healthy() && r.Fine()
      modifies forwarders, loop, config`forwarders, forwarders.repr
      ensures Healthy() && (forall c :: c in forwarders.repr && c !in old(forwarders.repr) ==> fresh(c))
      ensures Value() == E.Run(Env(), old(Value()), Reported(h, r))
    {
      HealthyInv();
      hide *;
      ghost var start := Value();
      IfReady(h, r);
      IfFailed(h, r);
      ReportedParts(h, r);
      E.RunInParts(Env(), start,
                   (if r.input then [E.Readable(h, r.reading)] else [])
                   + (if r.output then [E.Writable(h, r.writing)] else []),
                   if r.failed then [E.Failed(h)] else []);
    }

    /** The next entry of the poll list. */
    method DispatchNext(fds: seq<PollFd>, p: Poll, i: nat, ghost start: S.System)
      requires Healthy() && p.Fine() && i < |fds|
      requires Inv(start) && Value() == E.Run(Env(), start, ReportedUpTo(fds, p, i))
      modifies forwarders, loop, config`forwarders, forwarders.repr
      ensures Healthy() && (forall c :: c in forwarders.repr && c !in old(forwarders.repr) ==> fresh(c))
      ensures Value() == E.Run(Env(), start, ReportedUpTo(fds, p, i + 1))
      ensures E.AllAdmissible(ReportedUpTo(fds, p, i + 1))
    {
      HealthyInv();
      hide *;
      ReportedNext(Env(), start, fds, p, i);
      if fds[i].fd in p.ready {
        DispatchOne(fds[i].fd, p.ready[fds[i].fd]);
      }
    }

    /** One pass over the poll list after a poll. */
    method Dispatch(fds: seq<PollFd>, p: Poll)
      requires Healthy() && p.Fine()
      modifies forwarders, loop, config`forwarders, forwarders.repr
      ensures Healthy() && (forall c :: c in forwarders.repr && c !in old(forwarders.repr) ==> fresh(c))
      ensures Value() == E.Run(Env(), old(Value()), ReportedAll(fds, p))
    {
      HealthyInv();
      hide *;
      ghost var start := Value();
      ReportedNone(Env(), start, fds, p);
      ReportedDone(fds, p);
      var i := 0;
      while i < |fds|
        invariant i <= |fds| && E.AllAdmissible(ReportedUpTo(fds, p, i))
        invariant Healthy() && (forall c :: c in forwarders.repr && c !in old(forwarders.repr) ==> fresh(c))
        invariant Value() == E.Run(Env(), start, ReportedUpTo(fds, p, i))
      {
        DispatchNext(fds, p, i, start);
        i := i + 1;
      }
    }

    method IfRetiring(retire: bool)
      requires Healthy()
      modifies loop, forwarders
      ensures Healthy() && forwarders.repr == old(forwarders.repr)
      ensures var events := if retire then [E.Retire] else [];
              E.AllAdmissible(events) && Value() == E.Run(Env(), old(Value()), events)
    {
      hide Inv, Evolves, E.Step, E.Run;
      E.RunNone(Env(), Value());
      if retire {
        E.RunOne(Env(), Value(), E.Retire);
        Shutdown();
      }
    }

    method HandlePoll(fds: seq<PollFd>, p: Poll)
      requires Healthy() && p.Fine()
      modifies forwarders, loop, config`forwarders, forwarders.repr
      ensures Healthy() && (forall c :: c in forwarders.repr && c !in old(forwarders.repr) ==> fresh(c))
      ensures Value() == E.Run(Env(), old(Value()), Handled(fds, p))
    {
      HealthyInv();
      hide *;
      ghost var start := Value();
      Dispatch(fds, p);
      IfRetiring(p.retire);
      HandledParts(Env(), start, fds, p);
    }

    // ---------------------------------------------- running

    /** populateFds; an empty list means empty maps. */
    method Refill(stale: seq<PollFd>) returns (fds: seq<PollFd>)
      requires Healthy() && DistinctFds(stale)
      ensures Healthy() && Value() == old(Value()) && forwarders.repr == old(forwarders.repr)
      ensures DistinctFds(fds) && Polls(Value().loop, fds)
    {
      HealthyInv();
      hide *;
      fds := loop.PopulateFds(stale);
      PollsDistinct(loop.Value(), fds);
    }

    /** The body of run's loop after a poll: the list is filled before the sweep, which may change what is wanted. */
    method Round(before: seq<PollFd>, p: Poll) returns (fds: seq<PollFd>)
      requires Healthy() && DistinctFds(before) && p.Fine()
      modifies forwarders, loop, config`forwarders, forwarders.repr
      ensures Healthy() && (forall c :: c in forwarders.repr && c !in old(forwarders.repr) ==> fresh(c))
      ensures var filling := E.Run(Env(), old(Value()), Handled(before, p));
              && DistinctFds(fds) && Polls(filling.loop, fds)
              && Value() == E.Run(Env(), filling, Timeouts(filling, p.time))
      ensures InTime(Value(), p.time)
    {
      HealthyInv();
      hide *;
      HandlePoll(before, p);
      HealthyInv();
      fds := Refill(before);
      var currentTimeout := Timeout(p.time);
    }

    /** Up to the first poll. */
    method Prepare(time: int) returns (fds: seq<PollFd>)
      requires Healthy()
      modifies forwarders, loop, config`forwarders, forwarders.repr
      ensures Healthy() && (forall c :: c in forwarders.repr && c !in old(forwarders.repr) ==> fresh(c))
      ensures DistinctFds(fds) && Ran(Env(), old(Value()), time, [], [], fds, Value())
    {
      HealthyInv();
      hide *;
      ghost var start := Value();
      var currentTimeout := Timeout(time);
      HealthyInv();
      fds := Refill([]);
      RanNone(Env(), start, time, fds);
    }

    /** One round more, of a run that came from `start`. */
    method NextRound(before: seq<PollFd>, p: Poll, ghost start: S.System, ghost time: int,
                     ghost polls: seq<Poll>, ghost lists: seq<seq<PollFd>>)
      returns (fds: seq<PollFd>)
      requires Healthy() && DistinctFds(before) && before != [] && p.ok && p.Fine()
      requires Inv(start) && Ran(Env(), start, time, polls, lists, before, Value())
      modifies forwarders, loop, config`forwarders, forwarders.repr
      ensures Healthy() && (forall c :: c in forwarders.repr && c !in old(forwarders.repr) ==> fresh(c))
      ensures DistinctFds(fds) && Ran(Env(), start, time, polls + [p], lists + [before], fds, Value())
    {
      HealthyInv();
      hide *;
      ghost var t := Value();
      fds := Round(before, p);
      HealthyInv();
      RanNext(Env(), start, time, polls, lists, before, t, p, fds, Value());
    }

    /**
     * run, for as many polls as the environment has in store. It goes on until a
     * poll fails or there is nothing to poll for; what it does is then, event by
     * event, what the polls reported and the sweeps raised.
     */
    method Run(time: int, polls: seq<Poll>)
      returns (drained: bool, done: nat, ghost lists: seq<seq<PollFd>>, ghost fds: seq<PollFd>)
      requires Healthy() && AllFine(polls)
      modifies forwarders, loop, config`forwarders, forwarders.repr
      ensures Healthy() && (forall c :: c in forwarders.repr && c !in old(forwarders.repr) ==> fresh(c))
      ensures done <= |polls| && Ran(Env(), old(Value()), time, polls[..done], lists, fds, Value())
      ensures drained <==> fds == []
      ensures !drained && done < |polls| ==> !polls[done].ok
    {
      HealthyInv();
      hide *;
      ghost var start := Value();
      var list := Prepare(time);
      lists, done := [], 0;
      ghost var played: seq<Poll> := [];
      while |list| > 0 && done < |polls| && polls[done].ok
        invariant done <= |polls| && DistinctFds(list) && played == polls[..done]
        invariant Healthy() && (forall c :: c in forwarders.repr && c !in old(forwarders.repr) ==> fresh(c))
        invariant Ran(Env(), start, time, played, lists, list, Value())
        decreases |polls| - done
      {
        ghost var before := list;
        FineAt(polls, done);
        list := NextRound(list, polls[done], start, time, played, lists);
        played, lists, done := played + [polls[done]], lists + [before], done + 1;
      }
      fds, drained := list, |list| == 0;
    }
  }

  /** What main does before it runs the loop (src/main.cpp:226-239). */
  method Launch(configured: seq<Forwarder>, timeout: nat, limit: nat, env: S.Environment, clock: nat,
                bound: seq<Option<int>>)
    returns (listening: bool, dote: Dote)
    requires timeout >= 1
    ensures fresh(dote) && fresh(dote.loop) && fresh(dote.config) && fresh(dote.forwarders)
    ensures dote.Healthy() && dote.Env() == env && dote.forwarders.repr == {}
    ensures listening <==> forall i :: 0 <= i < |bound| ==> bound[i].Some?
    ensures dote.Value() == E.Start(if listening then Handles(bound) else {}, configured, timeout, limit, clock)
  {
    hide Inv, C.Values, C.Relayed, Handles;
    dote := new Dote(configured, timeout, limit, env, clock);
    listening := dote.Listen(bound);
  }

  /**
   * The whole program, with the handles of the sockets to listen on, where they
   * could be bound: when all could, it runs until a poll fails or nothing is
   * left. Every request that polls brought in came in its turn and is sent whole,
   * every valid packet is a reply to its own client and went out rewritten; and
   * it ends by itself only when every request has failed or is done.
   */
  method Program(configured: seq<Forwarder>, timeout: nat, limit: nat, env: S.Environment, clock: nat,
                 bound: seq<Option<int>>, time: int, polls: seq<Poll>)
    returns (listening: bool, dote: Dote, drained: bool, done: nat,
             ghost lists: seq<seq<PollFd>>, ghost fds: seq<PollFd>)
    requires timeout >= 1 && AllFine(polls)
    ensures listening <==> forall i :: 0 <= i < |bound| ==> bound[i].Some?
    ensures var s := E.Start(if listening then Handles(bound) else {}, configured, timeout, limit, clock);
            && Inv(s) && done <= |polls|
            && if listening then Ran(env, s, time, polls[..done], lists, fds, dote.Value()) else dote.Value() == s
    ensures listening && !drained && done < |polls| ==> !polls[done].ok
    ensures listening ==>
              var s := E.Start(Handles(bound), configured, timeout, limit, clock);
              K.Kept(Handles(bound), configured, timeout, limit, clock, env,
                     Rounds(env, s, time, polls[..done], lists), dote.Value())
    ensures var t := dote.Value();
            && E.Orderly(t) && t.configured == configured && t.timeout == timeout && t.limit == limit
            && C.Relayed(dote.forwarders.datagrams, t.replies)
            && (drained && limit >= 1 ==> forall i: nat :: i < |t.arrivals| ==> E.Refused(t, i) || E.Done(t, i))
  {
    hide *;
    listening, dote := Launch(configured, timeout, limit, env, clock, bound);
    dote.HealthyInv();
    drained, done, lists, fds := false, 0, [], [];
    ghost var s := dote.Value();
    StartFields(if listening then Handles(bound) else {}, configured, timeout, limit, clock);
    if listening {
      drained, done, lists, fds := dote.Run(time, polls);
      dote.HealthyInv();
      RanKeeps(env, s, time, polls[..done], lists, fds, dote.Value());
      RanKept(Handles(bound), configured, timeout, limit, clock, env, time, polls[..done], lists, fds, dote.Value());
      if drained {
        EmptyListDrains(env, s, time, polls[..done], lists, dote.Value());
        NothingLeftOf(dote.Value());
      }
    }
    ProgramOrderly(dote);
  }

  lemma ProgramOrderly(dote: Dote)
    requires dote.Healthy()
    ensures E.Orderly(dote.Value()) && C.Relayed(dote.forwarders.datagrams, dote.Value().replies)
  {
    E.InvOrderly(dote.Value());
  }

  lemma StartFields(servers: set<int>, configured: seq<Forwarder>, timeout: nat, limit: nat, clock: nat)
    ensures var s := E.Start(servers, configured, timeout, limit, clock);
            && s.configured == configured && s.timeout == timeout && s.limit == limit && s.clock == clock
            && s.servers == servers && s.conns == [] && s.arrivals == [] && s.replies == []
  {
  }

  /** What the polls reported and the sweeps raised is a run like any other. */
  lemma RanKept(servers: set<int>, configured: seq<Forwarder>, timeout: nat, limit: nat, clock: nat,
                env: S.Environment, time: int, polls: seq<Poll>, lists: seq<seq<PollFd>>,
                fds: seq<PollFd>, t: S.System)
    requires timeout >= 1 && Inv(E.Start(servers, configured, timeout, limit, clock))
    requires Ran(env, E.Start(servers, configured, timeout, limit, clock), time, polls, lists, fds, t)
    ensures AllFine(polls) && |lists| == |polls|
    ensures K.Kept(servers, configured, timeout, limit, clock, env,
                   Rounds(env, E.Start(servers, configured, timeout, limit, clock), time, polls, lists), t)
  {
    hide Inv, Evolves, E.Start, E.Run, K.Kept, Rounds, Listed, Filling, Polls, E.Admissible;
    K.EveryRun(servers, configured, timeout, limit, clock, env,
               Rounds(env, E.Start(servers, configured, timeout, limit, clock), time, polls, lists));
  }

  lemma RanKeeps(env: S.Environment, s: S.System, time: int, polls: seq<Poll>, lists: seq<seq<PollFd>>,
                 fds: seq<PollFd>, t: S.System)
    requires Inv(s) && Ran(env, s, time, polls, lists, fds, t)
    ensures t.configured == s.configured && t.timeout == s.timeout && t.limit == s.limit
  {
    assert Evolves(s, t);
  }

  lemma NothingLeftOf(t: S.System)
    requires Inv(t) && t.loop == Listening({})
    ensures t.limit >= 1 ==> forall i: nat :: i < |t.arrivals| ==> E.Refused(t, i) || E.Done(t, i)
  {
    E.NothingLeft(t);
  }
}
