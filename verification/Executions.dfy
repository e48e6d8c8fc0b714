// Runs of the event loop from a fresh start, and what holds at the end of each.

module Executions {
  import opened HandlerMaps
  import opened ForwarderConfigs
  import opened Connections
  import opened Systems
  import opened Invariants
  import opened Runs

  /** What can happen between two polls: a handle polls ready or failed, time passes, the servers are let go. */
  datatype Event =
    | Readable(handle: int, outcome: Outcome)
    | Writable(handle: int, outcome: Outcome)
    | Failed(handle: int)
    | Tick(now: int)
    | Retire

  /** The server puts a length in front of every request (src/server.cpp:147-148). */
  predicate Admissible(e: Event) {
    (e.Readable? || e.Writable?) && e.outcome.request.Some? ==> e.outcome.request.value.request != []
  }

  const NOTHING := Outcome(NeedRead, [], NeedRead, None)

  /** Whatever the loop calls back is bound in a state that fits. */
  lemma BoundFits(s: System, h: int)
    requires Inv(s)
    ensures h in s.loop.readFns && s.loop.readFns[h].callback.Bound? ==>
              var cb := s.loop.readFns[h].callback;
              cb.id < |s.conns| && Fitting(cb.action, s.conns[cb.id].state) && Ready(s, cb.id, cb.action)
    ensures h in s.loop.writeFns ==>
              var cb := s.loop.writeFns[h].callback;
              cb.Bound? && cb.id < |s.conns| && Fitting(cb.action, s.conns[cb.id].state) && Ready(s, cb.id, cb.action)
    ensures h in s.loop.exceptFns ==>
              var cb := s.loop.exceptFns[h];
              cb.Bound? && cb.id < |s.conns| && Fitting(cb.action, s.conns[cb.id].state) && cb.action.Abort?
  {
    forall id: nat | id < |s.conns| && s.conns[id].socket == Some(h) ensures Agrees(s.loop, id, s.conns[id]) {
    }
  }

  lemma InvokeKeeps(env: Environment, s: System, cb: Callback, o: Outcome)
    requires Inv(s) && (o.request.Some? ==> o.request.value.request != [])
    requires cb.Bound? ==> cb.id < |s.conns| && Fitting(cb.action, s.conns[cb.id].state) && Ready(s, cb.id, cb.action)
    ensures Inv(Invoke(env, s, cb, o)) && Evolves(s, Invoke(env, s, cb, o))
  {
    hide Inv, Evolves;
    match cb
    case Serve =>
      if o.request.Some? {
        HandleRequestKeeps(env, s, o.request.value);
      } else {
        EvolvesToItself(s);
      }
    case Bound(id, a) => ActKeeps(env, s, id, a, o);
  }

  lemma EvolvesToItself(s: System)
    ensures Evolves(s, s)
  {
  }

  function LetGo(l: Handlers): Handlers {
    l.(readFns := map h | h in l.readFns && !l.readFns[h].callback.Serve? :: l.readFns[h])
  }

  /** The servers are let go: their handlers are gone, and their handles may be handed out again. */
  function Retired(s: System): System {
    s.(loop := LetGo(s.loop), servers := {})
  }

  lemma RetiredKeeps(s: System)
    requires Inv(s)
    ensures Inv(Retired(s)) && Evolves(s, Retired(s))
  {
    SameReplies(s, Retired(s));
    RetiredWired(s);
    hide Wired, Replied, LetGo;
  }

  lemma RetiredWired(s: System)
    requires Wired(s)
    ensures Wired(Retired(s))
  {
    var t := Retired(s);
    forall i | 0 <= i < |t.conns| ensures Agrees(t.loop, i, t.conns[i]) {
      assert Agrees(s.loop, i, s.conns[i]);
    }
    hide Agrees;
    assert Agreed(t) && Apart(t) && Owned(t);
  }

  lemma TickKeeps(s: System, now: int)
    requires Inv(s) && s.clock <= now
    ensures Inv(s.(clock := now)) && Evolves(s, s.(clock := now))
  {
    var t := s.(clock := now);
    SameReplies(s, t);
    WiredAlike(s, t);
    hide Wired, Replied;
  }

  /** One event: the callback registered for the handle, if there is one. */
  function Step(env: Environment, s: System, e: Event): (t: System)
    requires Inv(s) && Admissible(e)
    ensures Inv(t) && Evolves(s, t)
  {
    EvolvesToItself(s);
    match e
    case Readable(h, o) =>
      if h in s.loop.readFns then
        BoundFits(s, h); InvokeKeeps(env, s, s.loop.readFns[h].callback, o);
        Invoke(env, s, s.loop.readFns[h].callback, o)
      else s
    case Writable(h, o) =>
      if h in s.loop.writeFns then
        BoundFits(s, h); InvokeKeeps(env, s, s.loop.writeFns[h].callback, o);
        Invoke(env, s, s.loop.writeFns[h].callback, o)
      else s
    case Failed(h) =>
      if h in s.loop.exceptFns then
        BoundFits(s, h); InvokeKeeps(env, s, s.loop.exceptFns[h], NOTHING);
        Invoke(env, s, s.loop.exceptFns[h], NOTHING)
      else s
    case Tick(now) =>
      TickKeeps(s, Max(s.clock, now));
      s.(clock := Max(s.clock, now))
    case Retire =>
      RetiredKeeps(s);
      Retired(s)
  }

  lemma HandlersOwned(s: System, k: int)
    requires Inv(s)
    ensures k in s.loop.readFns ==> OwnedBy(s, k, s.loop.readFns[k].callback)
    ensures k in s.loop.writeFns ==> OwnedBy(s, k, s.loop.writeFns[k].callback)
    ensures k in s.loop.exceptFns ==> OwnedBy(s, k, s.loop.exceptFns[k])
  {
  }

  lemma StillOpen(s: System, id: nat, h: int)
    requires Inv(s) && id < |s.conns| && s.conns[id].socket == Some(h)
    ensures !s.conns[id].state.CLOSED? && h in s.loop.exceptFns && s.loop.exceptFns[h] == Bound(id, Abort)
  {
    assert Agrees(s.loop, id, s.conns[id]);
  }

  lemma StepAborts(env: Environment, t: System, n: nat, h: int)
    requires Inv(t) && h in t.loop.exceptFns && t.loop.exceptFns[h] == Bound(n, Abort)
    ensures Ready(t, n, Abort) && Step(env, t, Failed(h)) == Act(env, t, n, Abort, NOTHING)
  {
    BoundFits(t, h);
    hide Inv, Evolves, Act;
  }

  predicate AllAdmissible(events: seq<Event>) {
    forall i :: 0 <= i < |events| ==> Admissible(events[i])
  }

  /** A whole run. Its contract is the main theorem: in every reachable state the invariant holds. */
  function Run(env: Environment, s: System, events: seq<Event>): (t: System)
    requires Inv(s) && AllAdmissible(events)
    ensures Inv(t) && Evolves(s, t)
    decreases events
  {
    hide Inv, Evolves, Step, Admissible;
    if events == [] then
      EvolvesToItself(s);
      s
    else
      var next := Step(env, s, events[0]);
      var t := Run(env, next, events[1..]);
      EvolvesTransitively(s, next, t);
      t
  }

  /** Listening on `servers`, with nothing arrived yet. */
  function Start(servers: set<int>, configured: seq<Forwarder>, timeout: nat, limit: nat, clock: nat): System {
    System(Handlers(map h | h in servers :: Entry(Serve, 0), map[], map[]), servers,
           configured, configured, timeout, limit, [], [], [], clock, [], [], [], [], [], [])
  }

  lemma StartHolds(servers: set<int>, configured: seq<Forwarder>, timeout: nat, limit: nat, clock: nat)
    requires timeout >= 1
    ensures Inv(Start(servers, configured, timeout, limit, clock))
  {
    var s := Start(servers, configured, timeout, limit, clock);
    ServingWired(s);
    NothingYet(s);
    hide Wired, Replied, Attempted, Pooled, Fired, Blamed;
  }

  lemma ServingWired(s: System)
    requires s.conns == [] && s.loop.writeFns == map[] && s.loop.exceptFns == map[]
    requires forall h :: h in s.loop.readFns <==> h in s.servers
    requires forall h :: h in s.loop.readFns ==> s.loop.readFns[h] == Entry(Serve, 0)
    ensures Wired(s)
  {
  }

  lemma NothingYet(s: System)
    requires s.conns == [] && s.pool == [] && s.attempts == [] && s.replies == [] && s.fired == []
    requires s.blamed == [] && s.failures == [] && s.forwarders == s.configured
    ensures Replied(s) && Attempted(s) && Pooled(s, {}) && Fired(s, {}) && Blamed(s)
  {
    hide Answers;
  }

  /** A run can be cut anywhere, so what Run ensures holds at, and between, any two of its points. */
  lemma {:induction false} RunInParts(env: Environment, s: System, first: seq<Event>, second: seq<Event>)
    requires Inv(s) && AllAdmissible(first) && AllAdmissible(second)
    ensures AllAdmissible(first + second)
    ensures Run(env, s, first + second) == Run(env, Run(env, s, first), second)
    decreases first
  {
    hide Inv, Evolves, Step, Admissible;
    assert AllAdmissible(first + second);
    if first == [] {
      assert first + second == second;
    } else {
      assert (first + second)[1..] == first[1..] + second;
      RunInParts(env, Step(env, s, first[0]), first[1..], second);
    }
  }

  lemma RunNext(env: Environment, s: System, events: seq<Event>, e: Event)
    requires Inv(s) && AllAdmissible(events) && Admissible(e)
    ensures AllAdmissible(events + [e])
    ensures Run(env, s, events + [e]) == Step(env, Run(env, s, events), e)
  {
    hide Inv, Evolves, Step, Admissible;
    assert AllAdmissible([e]);
    RunInParts(env, s, events, [e]);
    RunOne(env, Run(env, s, events), e);
  }

  lemma RunNone(env: Environment, s: System)
    requires Inv(s)
    ensures AllAdmissible([]) && Run(env, s, []) == s
  {
  }

  lemma RunOne(env: Environment, s: System, e: Event)
    requires Inv(s) && Admissible(e)
    ensures AllAdmissible([e]) && Run(env, s, [e]) == Step(env, s, e)
  {
    hide Inv, Evolves, Step, Admissible;
    assert AllAdmissible([e]);
    assert [e][1..] == [];
    assert Run(env, s, [e]) == Run(env, Step(env, s, [e][0]), [e][1..]);
  }

  lemma RunTwo(env: Environment, s: System, e: Event, f: Event)
    requires Inv(s) && Admissible(e) && Admissible(f)
    ensures AllAdmissible([e, f]) && Run(env, s, [e, f]) == Step(env, Step(env, s, e), f)
  {
    hide Inv, Step, Admissible, Run;
    RunOne(env, s, e);
    RunNext(env, s, [e], f);
    assert [e] + [f] == [e, f];
  }

  // ------------------------------------------------ what comes in and what goes out

  /** The request that an event brings in: by a listening socket. */
  function Requested(servers: set<int>, e: Event): seq<Query> {
    match e
    case Readable(h, o) => if h in servers && o.request.Some? then [o.request.value] else []
    case _ => []
  }

  /** The listening sockets after an event. */
  function Remaining(servers: set<int>, e: Event): set<int> {
    if e.Retire? then {} else servers
  }

  /** The requests that events bring in, in order. */
  function Requests(servers: set<int>, events: seq<Event>): seq<Query>
    decreases events
  {
    if events == [] then []
    else Requested(servers, events[0]) + Requests(Remaining(servers, events[0]), events[1..])
  }

  /** What an event makes of the forwarder's data: a reply, when an open connection reads a valid packet. */
  function Delivery(s: System, e: Event): seq<Reply> {
    match e
    case Readable(h, o) =>
      if h in s.loop.readFns && s.loop.readFns[h].callback.Bound? then
        Answered(s, s.loop.readFns[h].callback.id, s.loop.readFns[h].callback.action, o)
      else []
    case _ => []
  }

  /** The data as it was read, to where the request of the connection came from. */
  function Answered(s: System, id: nat, a: Action, o: Outcome): seq<Reply> {
    if id < |s.conns| && s.conns[id].query.Some? && Delivers(a, o) then
      var q := s.conns[id].query.value;
      [Reply(id, q.socket, q.client, q.server, q.interface, o.data)]
    else []
  }

  /** The replies that events set off, in order. */
  function Deliveries(env: Environment, s: System, events: seq<Event>): seq<Reply>
    requires Inv(s) && AllAdmissible(events)
    decreases events
  {
    if events == [] then [] else Delivery(s, events[0]) + Deliveries(env, Step(env, s, events[0]), events[1..])
  }

  lemma ActReplies(env: Environment, s: System, id: nat, a: Action, o: Outcome)
    requires Inv(s) && id < |s.conns| && Fitting(a, s.conns[id].state) && Ready(s, id, a)
    ensures var t := Act(env, s, id, a, o);
            t.replies == s.replies + Answered(s, id, a, o) && t.arrivals == s.arrivals && t.servers == s.servers
  {
    hide Inv, Act, Finish, Effected, Delivers;
    ActExact(env, s, id, a, o);
    ActFinishes(env, s, id, a, o);
    FinishOthers(env, Passed(s, id, a, o), id, Effected(s, id, a, o));
  }

  lemma InvokeReplies(env: Environment, s: System, cb: Callback, o: Outcome)
    requires Inv(s)
    requires cb.Bound? ==> cb.id < |s.conns| && Fitting(cb.action, s.conns[cb.id].state) && Ready(s, cb.id, cb.action)
    ensures var t := Invoke(env, s, cb, o);
            && t.servers == s.servers
            && t.arrivals == s.arrivals + (if cb.Serve? && o.request.Some? then [o.request.value] else [])
            && t.replies == s.replies + (if cb.Bound? then Answered(s, cb.id, cb.action, o) else [])
  {
    hide Inv, Act, HandleRequest, Answered;
    match cb
    case Serve =>
      if o.request.Some? {
        HandleRequestArrives(env, s, o.request.value);
      }
    case Bound(id, a) => ActReplies(env, s, id, a, o);
  }

  /** Handlers without a connection are those of listening sockets. */
  lemma ServersServe(s: System, h: int)
    requires Inv(s)
    ensures h in s.servers <==> h in s.loop.readFns && s.loop.readFns[h].callback.Serve?
    ensures h in s.loop.writeFns ==> s.loop.writeFns[h].callback.Bound? && !s.loop.writeFns[h].callback.action.Receive?
    ensures h in s.loop.exceptFns ==> s.loop.exceptFns[h].Bound? && s.loop.exceptFns[h].action.Abort?
  {
    forall i | 0 <= i < |s.conns| ensures Agrees(s.loop, i, s.conns[i]) {
    }
  }

  /**
   * Every request that a listening socket hands over is an arrival, and nothing
   * else is; and every valid packet that an open connection reads is a reply, as
   * it was read, and nothing else is.
   */
  lemma StepExchanges(env: Environment, s: System, e: Event)
    requires Inv(s) && Admissible(e)
    ensures var t := Step(env, s, e);
            && t.arrivals == s.arrivals + Requested(s.servers, e)
            && t.replies == s.replies + Delivery(s, e)
            && t.servers == Remaining(s.servers, e)
  {
    hide Inv, Evolves, Invoke, Answered, LetGo, Admissible;
    match e
    case Readable(h, o) =>
      ServersServe(s, h);
      if h in s.loop.readFns {
        BoundFits(s, h);
        InvokeReplies(env, s, s.loop.readFns[h].callback, o);
      }
    case Writable(h, o) =>
      ServersServe(s, h);
      if h in s.loop.writeFns {
        BoundFits(s, h);
        InvokeReplies(env, s, s.loop.writeFns[h].callback, o);
        NotReceived(s, s.loop.writeFns[h].callback.id, s.loop.writeFns[h].callback.action, o);
      }
    case Failed(h) =>
      if h in s.loop.exceptFns {
        BoundFits(s, h);
        InvokeReplies(env, s, s.loop.exceptFns[h], NOTHING);
        NotReceived(s, s.loop.exceptFns[h].id, s.loop.exceptFns[h].action, NOTHING);
      }
    case Tick(now) =>
    case Retire =>
  }

  lemma NotReceived(s: System, id: nat, a: Action, o: Outcome)
    requires !a.Receive?
    ensures Answered(s, id, a, o) == []
  {
  }

  /** So over any run. */
  lemma {:induction false} RunExchanges(env: Environment, s: System, events: seq<Event>)
    requires Inv(s) && AllAdmissible(events)
    ensures Run(env, s, events).arrivals == s.arrivals + Requests(s.servers, events)
    ensures Run(env, s, events).replies == s.replies + Deliveries(env, s, events)
    decreases events
  {
    hide Inv, Evolves, Step, Admissible, Requested, Delivery;
    if events != [] {
      StepExchanges(env, s, events[0]);
      RunExchanges(env, Step(env, s, events[0]), events[1..]);
    }
  }

  // ------------------------------------------------ requests

  predicate Waiting(s: System, i: nat) {
    |s.conns| <= i < |s.arrivals| && i - |s.conns| < |s.queue| && s.queue[i - |s.conns|] == s.arrivals[i]
  }

  predicate Running(s: System, i: nat) {
    i in s.pool && i < |s.conns| && i < |s.arrivals| && s.conns[i].query == Some(s.arrivals[i])
  }

  predicate Refused(s: System, i: nat) {
    i < |s.conns| && s.conns[i].state.CLOSED? && s.conns[i].query.None?
  }

  predicate Done(s: System, i: nat) {
    && i in s.fired && i < |s.conns| && i < |s.arrivals|
    && s.conns[i].query == Some(s.arrivals[i]) && s.conns[i].state.CLOSED?
  }

  /** First come, first served, within the limit, and never idle while something waits. */
  lemma ServedInOrder(s: System)
    requires Inv(s)
    ensures s.arrivals == s.attempts + s.queue && |s.attempts| == |s.conns|
    ensures |s.pool| <= s.limit && (s.queue != [] ==> |s.pool| == s.limit)
  {
    assert s.attempts + [] == s.attempts;
  }

  /** Every arrival is waiting, running, refused or done, and only one of them. */
  lemma FateOfArrival(s: System, i: nat)
    requires Inv(s) && i < |s.arrivals|
    ensures Waiting(s, i) || Running(s, i) || Refused(s, i) || Done(s, i)
    ensures !(Waiting(s, i) && Running(s, i)) && !(Waiting(s, i) && Refused(s, i)) && !(Waiting(s, i) && Done(s, i))
    ensures !(Running(s, i) && Refused(s, i)) && !(Running(s, i) && Done(s, i)) && !(Refused(s, i) && Done(s, i))
  {
    ServedInOrder(s);
    if i < |s.conns| {
      assert s.attempts[i] == s.arrivals[i];
    }
  }

  /** As many different numbers as the range has. */
  lemma {:induction false} DistinctWithin(xs: seq<nat>, low: nat, high: nat)
    requires NoRepeats(xs) && low <= high && forall x :: x in xs ==> low <= x < high
    ensures |xs| <= high - low
    decreases high
  {
    hide NoRepeats, Erased;
    if xs != [] {
      assert xs[0] in xs;
      if high - 1 in xs {
        ErasedFrom(xs, high - 1);
        DistinctWithin(Erased(xs, high - 1), low, high - 1);
      } else {
        DistinctWithin(xs, low, high - 1);
      }
    }
  }

  /** Every reply goes where the request with its number came from, and a request has at most one. */
  lemma RepliesAddressed(s: System, k: nat)
    requires Inv(s) && k < |s.replies|
    ensures var r := s.replies[k];
            && r.id < |s.arrivals|
            && var q := s.arrivals[r.id];
            && r.socket == q.socket && r.client == q.client && r.server == q.server && r.interface == q.interface
    ensures forall j :: 0 <= j < |s.replies| && j != k ==> s.replies[j].id != s.replies[k].id
  {
    ServedInOrder(s);
    assert Answers(s, s.replies[k]);
    assert s.attempts[s.replies[k].id] == s.arrivals[s.replies[k].id];
  }

  predicate Addressed(r: Reply, q: Query) {
    r.socket == q.socket && r.client == q.client && r.server == q.server && r.interface == q.interface
  }

  /**
   * First come, first tried; the pool is within its limit, and full when anything
   * waits; the forwarders are in failure order; and a request has at most one
   * reply, which goes where it came from.
   */
  predicate Orderly(s: System) {
    && s.arrivals == s.attempts + s.queue
    && |s.pool| <= s.limit && (s.queue != [] ==> |s.pool| == s.limit)
    && s.forwarders == AfterFailures(s.configured, s.failures)
    && (forall k :: 0 <= k < |s.replies| ==>
          s.replies[k].id < |s.arrivals| && Addressed(s.replies[k], s.arrivals[s.replies[k].id]))
    && (forall j, k :: 0 <= j < k < |s.replies| ==> s.replies[j].id != s.replies[k].id)
  }

  lemma InvOrderly(s: System)
    requires Inv(s)
    ensures Orderly(s)
  {
    ServedInOrder(s);
    forall k | 0 <= k < |s.replies|
      ensures s.replies[k].id < |s.arrivals| && Addressed(s.replies[k], s.arrivals[s.replies[k].id])
    {
      RepliesAddressed(s, k);
    }
  }

  /** When no handler is left, every request has been tried, and has failed or is done. */
  lemma NothingLeft(s: System)
    requires Inv(s) && s.loop == Handlers(map[], map[], map[])
    ensures s.pool == []
    ensures s.limit >= 1 ==> s.queue == [] && |s.attempts| == |s.arrivals|
    ensures s.limit >= 1 ==> forall i: nat :: i < |s.arrivals| ==> Refused(s, i) || Done(s, i)
  {
    forall id: nat | id < |s.conns| ensures s.conns[id].state.CLOSED? {
      assert Agrees(s.loop, id, s.conns[id]);
    }
    DistinctWithin(s.pool, 0, 0);
    ServedInOrder(s);
    if s.limit >= 1 {
      forall i: nat | i < |s.arrivals| ensures Refused(s, i) || Done(s, i) {
        FateOfArrival(s, i);
      }
    }
  }

  // ------------------------------------------------ connections

  /**
   * A connection is in the pool exactly while it is not closed; m_shutdown has
   * fired once if it joined and closed, and never otherwise; and setBad was
   * called at most once, by a connection that is closed now.
   */
  lemma LifeOfConnection(s: System, i: nat)
    requires Inv(s) && i < |s.conns|
    ensures multiset(s.pool)[i] == if s.conns[i].state.CLOSED? then 0 else 1
    ensures multiset(s.fired)[i] == if s.conns[i].state.CLOSED? && s.conns[i].query.Some? then 1 else 0
    ensures multiset(s.blamed)[i] <= 1 && (i in s.blamed ==> s.conns[i].state.CLOSED?)
  {
    hide Wired, Attempted, Replied;
    CountedOnce(s.pool, i);
    CountedOnce(s.fired, i);
    CountedOnce(s.blamed, i);
  }

  lemma {:induction false} CountedOnce(xs: seq<nat>, x: nat)
    requires NoRepeats(xs)
    ensures multiset(xs)[x] == if x in xs then 1 else 0
  {
    if xs != [] {
      var front, last := xs[..|xs| - 1], xs[|xs| - 1];
      assert xs == front + [last];
      CountedOnce(front, x);
      if x == last {
        assert x !in front;
      }
    }
  }

  /** What a connection has registered, by its state, and what that is bound to. */
  lemma AgreementByState(s: System, i: nat)
    requires Inv(s) && i < |s.conns|
    ensures var c := s.conns[i];
            match c.state
            case CLOSED => c.socket.None? && c.read.Moved? && c.write.Moved? && c.exception.Moved?
            case OPEN =>
              && c.socket.Some?
              && var h := c.socket.value;
              && h in s.loop.readFns && s.loop.readFns[h] == Entry(Bound(i, Receive), c.deadline)
              && (h in s.loop.writeFns <==> c.buffer != [])
              && (h in s.loop.writeFns ==> s.loop.writeFns[h] == Entry(Bound(i, Transmit), c.deadline))
              && h in s.loop.exceptFns && s.loop.exceptFns[h] == Bound(i, Abort)
            case _ =>
              && c.socket.Some?
              && var h := c.socket.value;
              && var member := if c.state.CONNECTING? then Handshake else Goodbye;
              && (h in s.loop.readFns <==> h !in s.loop.writeFns)
              && (h in s.loop.readFns ==> s.loop.readFns[h] == Entry(Bound(i, member), c.deadline))
              && (h in s.loop.writeFns ==> s.loop.writeFns[h] == Entry(Bound(i, member), c.deadline))
              && h in s.loop.exceptFns && s.loop.exceptFns[h] == Bound(i, Abort)
  {
    assert Agrees(s.loop, i, s.conns[i]);
  }

  // ------------------------------------------------ handlers and forwarders

  /** A registration that some connection holds. */
  predicate Held(s: System, c: Claim) {
    exists i :: 0 <= i < |s.conns| && (s.conns[i].read == c || s.conns[i].write == c || s.conns[i].exception == c)
  }

  predicate Served(s: System, c: Claim) {
    c.Read? && c.handle in s.servers
  }

  /** The handlers in the loop are those of listening sockets and those some connection holds a registration for. */
  lemma HandlersAreHeld(s: System, c: Claim)
    requires Inv(s) && !c.Moved?
    ensures s.loop.Has(c) <==> Held(s, c) || Served(s, c)
    ensures !(Held(s, c) && Served(s, c))
  {
    forall i | 0 <= i < |s.conns| ensures Agrees(s.loop, i, s.conns[i]) {
    }
    assert Owned(s) && Apart(s);
    hide Inv;
  }

  /** Whatever the run, the next connection goes to the forwarder that failed longest ago, or never. */
  lemma NextConnectionChoice(env: Environment, s: System, f: Forwarder)
    requires Inv(s) && Distinct(s.configured) && f in s.configured && env(|s.conns|).tls
    ensures var c := Construct(env, s).conns[|s.conns|];
            && (exists g :: g in s.configured && g.remote == c.remote)
            && (f.remote == c.remote || Before(s.configured, s.failures, c.remote, f.remote))
  {
    NextForwarder(s.configured, s.failures, f);
    var b := env(|s.conns|);
    var first := s.forwarders[0];
    assert first in s.configured;
    BornRemote(s, Max(s.clock, b.clock), b);
  }

  lemma BornRemote(s: System, now: int, b: Birth)
    requires b.tls && s.forwarders != []
    ensures Born(s, now, b).conn.remote == s.forwarders[0].remote
  {
  }
}
