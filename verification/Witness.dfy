// Short runs from a start with one listening socket, one forwarder and room for
// one connection: a report that hits the wrong one, a poll without limit, and a
// request that waits behind such a poll.

module Witnesses {
  import opened HandlerMaps
  import opened ForwarderConfigs
  import opened Connections
  import opened Systems
  import opened Invariants
  import opened Runs
  import opened Executions
  import opened Reports
  import opened Sweeps
  import opened Waits

  const ASKED := Readable(1, Outcome(Success, [], NeedRead, Some(Query(1, 0, 0, 0, [0]))))
  const LEFT := Readable(5, Outcome(Hangup, [], NeedRead, None))

  /** Every socket gets handle 5. The first connection is open at once, the others have to wait for TLS. */
  function Answers5(): Environment {
    (n: nat) => Birth(0, true, Some(5), if n == 0 then Success else NeedRead)
  }

  function Listening(): System {
    Start({1}, [Forwarder(0, false, "", [])], 1, 1, 0)
  }

  /** A request comes in by a listening socket. */
  lemma StepServes(env: Environment, s: System, h: int, o: Outcome)
    requires Inv(s) && Admissible(Readable(h, o)) && o.request.Some?
    requires h in s.loop.readFns && s.loop.readFns[h].callback.Serve?
    ensures Step(env, s, Readable(h, o)) == HandleRequest(env, s, o.request.value)
  {
    hide HandleRequest, Inv, Evolves;
  }

  /** One connection fills the pool and nothing waits. */
  predicate Full(t: System) {
    && |t.conns| == 1 && t.conns[0].state.OPEN? && t.conns[0].socket == Some(5) && t.conns[0].deadline == 1
    && t.pool == [0] && t.limit == 1 && t.queue == [] && t.forwarders != [] && t.servers == {1} && t.clock == 0
  }

  lemma FirstOpens(env: Environment, s: System, q: Query)
    requires env == Answers5() && Core(s, {}) && q.request != []
    requires s.conns == [] && s.pool == [] && s.queue == [] && s.servers == {1} && s.forwarders != []
    requires s.limit == 1 && s.timeout == 1 && s.clock == 0
    ensures Full(SendRequest(env, s, q))
  {
    hide Core, SendRequest, OnlyNewer;
    FirstJoins(env, s, q);
    SendRequestStarts(env, s, q);
    FirstKeeps(env, s, q);
    assert ClockAt(env, 0, 0, 1) == 0;
  }

  lemma FirstJoins(env: Environment, s: System, q: Query)
    requires env == Answers5()
    requires s.conns == [] && s.pool == [] && s.queue == [] && s.servers == {1} && s.forwarders != []
    ensures var t := SendRequest(env, s, q);
            && |t.conns| == 1 && t.conns[0].state.OPEN? && t.conns[0].socket == Some(5)
            && t.pool == [0] && t.queue == [] && t.limit == s.limit
  {
    var tried := s.(attempts := s.attempts + [q]);
    assert OpenHandles(tried) == {1};
    hide Born, Blame, Send, Construct, OpenHandles;
    TriedOne(env, tried, q.request);
    ConstructOrder(env, tried);
  }

  lemma FirstKeeps(env: Environment, s: System, q: Query)
    requires s.forwarders != [] && s.servers == {1}
    ensures SendRequest(env, s, q).forwarders != [] && SendRequest(env, s, q).servers == {1}
  {
    hide SendRequest;
    SendRequestOnlyNewer(env, s, q);
  }

  /** The first request opens connection 0, for which TLS is done at once. */
  lemma AskedOnce(env: Environment, s: System, asked: Event)
    requires env == Answers5() && s == Listening() && asked == ASKED
    ensures Inv(s) && Admissible(asked) && Full(Step(env, s, asked))
  {
    StartHolds({1}, [Forwarder(0, false, "", [])], 1, 1, 0);
    var q := asked.outcome.request.value;
    var arrived := s.(arrivals := s.arrivals + [q]);
    hide SendRequest, Inv, Evolves, Step, Core, Full;
    ArrivalKeeps(s, q);
    StepServes(env, s, 1, asked.outcome);
    FirstOpens(env, arrived, q);
    assert Step(env, s, asked) == SendRequest(env, arrived, q);
  }

  /** Another has to wait. */
  lemma AnotherWaits(env: Environment, s: System, asked: Event)
    requires asked == ASKED && Inv(s) && s.servers == {1} && s.pool == [0] && s.limit == 1
    ensures Admissible(asked)
    ensures var q := asked.outcome.request.value;
            Step(env, s, asked) == s.(arrivals := s.arrivals + [q], queue := s.queue + [q])
  {
    hide SendRequest, Evolves, Step;
    StepServes(env, s, 1, asked.outcome);
  }

  lemma RunFour(env: Environment, s: System, a: Event, b: Event, c: Event, d: Event)
    requires Inv(s) && Admissible(a) && Admissible(b) && Admissible(c) && Admissible(d)
    ensures AllAdmissible([a, b]) && AllAdmissible([a, b, c, d])
    ensures Run(env, s, [a, b, c, d]) == Step(env, Step(env, Run(env, s, [a, b]), c), d)
  {
    hide *;
    RunTwo(env, s, a, b);
    RunTwo(env, Run(env, s, [a, b]), c, d);
    RunInParts(env, s, [a, b], [c, d]);
    assert [a, b] + [c, d] == [a, b, c, d];
  }

  /**
   * When the forwarder hangs up and the same poll reports a failure on the
   * handle, connection 1 calls setBad, although nothing was reported about it.
   */
  lemma MisdirectedRun(env: Environment, start: System, asked: Event, left: Event)
    requires env == Answers5() && start == Listening() && asked == ASKED && left == LEFT
    ensures Inv(start) && AllAdmissible([asked, asked]) && AllAdmissible([asked, asked, left, Failed(5)])
    ensures var s := Run(env, start, [asked, asked]);
            5 in s.loop.exceptFns && s.loop.exceptFns[5] == Bound(0, Abort)
            && Ends(s, left, 5) && Reopens(env, s, 5)
    ensures 1 in Run(env, start, [asked, asked, left, Failed(5)]).blamed
  {
    LeftFine(left);
    hide *;
    AskedOnce(env, start, asked);
    FullAsked(env, Step(env, start, asked), asked);
    RunTwo(env, start, asked, asked);
    RunFour(env, start, asked, asked, left, Failed(5));
    LeftMisdirected(env, Run(env, start, [asked, asked]), left);
  }

  lemma FullAsked(env: Environment, s: System, asked: Event)
    requires asked == ASKED && Inv(s) && Full(s)
    ensures Admissible(asked)
    ensures var t := Step(env, s, asked);
            && |t.conns| == 1 && t.conns[0].state.OPEN? && t.conns[0].socket == Some(5)
            && |t.queue| == 1 && t.forwarders != []
  {
    hide Inv, Step, Evolves;
    AnotherWaits(env, s, asked);
  }

  lemma LeftFine(left: Event)
    requires left == LEFT
    ensures Admissible(left) && Admissible(Failed(5))
  {
  }

  lemma LeftMisdirected(env: Environment, s: System, left: Event)
    requires env == Answers5() && left == LEFT
    requires Inv(s) && |s.conns| == 1 && s.conns[0].state.OPEN? && s.conns[0].socket == Some(5)
    requires |s.queue| == 1 && s.forwarders != []
    ensures 5 in s.loop.exceptFns && s.loop.exceptFns[5] == Bound(0, Abort)
    ensures Ends(s, left, 5) && Reopens(env, s, 5)
    ensures Admissible(left) && Admissible(Failed(5))
    ensures 1 in Step(env, Step(env, s, left), Failed(5)).blamed
  {
    LeftFine(left);
    hide *;
    WillReopen(env, s, left);
    ReportMisdirected(env, s, left, 5);
  }

  lemma WillReopen(env: Environment, s: System, left: Event)
    requires env == Answers5() && left == LEFT
    requires Inv(s) && |s.conns| == 1 && s.conns[0].state.OPEN? && s.conns[0].socket == Some(5)
    requires |s.queue| == 1 && s.forwarders != []
    ensures 5 in s.loop.exceptFns && s.loop.exceptFns[5] == Bound(0, Abort)
    ensures Ends(s, left, 5) && Reopens(env, s, 5) && !env(1).connect.Success?
    ensures Opening(env, s, OpenHandles(s) - {5}, |s.queue|) == 1
  {
    assert Agrees(s.loop, 0, s.conns[0]);
    assert Opens(env(1), OpenHandles(s) - {5});
  }

  // ------------------------------------------------ a poll without limit

  const SENT := Writable(5, Outcome(Success, [], NeedRead, None))

  /**
   * With its one request sent, the connection has a deadline, but whatever the
   * time, the next poll waits for the reply without limit.
   */
  lemma UnlimitedRun(env: Environment, start: System, asked: Event, sent: Event)
    requires env == Answers5() && start == Listening() && asked == ASKED && sent == SENT
    ensures Inv(start) && AllAdmissible([asked, sent])
    ensures var u := Run(env, start, [asked, sent]);
            && |u.conns| == 1 && 0 in u.pool && u.conns[0].deadline == 1
            && forall time :: PollWait(env, u, time) == -1
  {
    SentFine(sent);
    hide *;
    AskedOnce(env, start, asked);
    RunTwo(env, start, asked, sent);
    var t := Step(env, start, asked);
    SentOnce(env, t, sent);
    SentWaits(env, Step(env, t, sent));
  }

  lemma SentWaits(env: Environment, u: System)
    requires Inv(u) && Sent(u)
    ensures |u.conns| == 1 && 0 in u.pool && u.conns[0].deadline == 1
    ensures forall time :: PollWait(env, u, time) == -1
  {
    hide Inv, PollWait;
    forall time ensures PollWait(env, u, time) == -1 {
      RepliesAwaited(env, u, time);
    }
  }

  lemma SentFine(sent: Event)
    requires sent == SENT
    ensures Admissible(sent)
  {
  }

  /** The connection has sent what it was given. */
  predicate Sent(u: System) {
    Full(u) && u.conns[0].write == Moved
  }

  lemma SentOnce(env: Environment, t: System, sent: Event)
    requires Inv(t) && sent == SENT && Full(t)
    ensures Admissible(sent) && Sent(Step(env, t, sent))
  {
    assert Agrees(t.loop, 0, t.conns[0]);
    SentEffect(t.loop, t.conns[0]);
    hide Inv, Evolves, Outgoing;
  }

  lemma SentEffect(l: Handlers, c: Connection)
    requires Agrees(l, 0, c) && c.state.OPEN?
    ensures var e := Outgoing(l, c, Success);
            && !e.due && !e.bad && e.conn.write == Moved && e.conn.deadline == c.deadline
            && e.conn.state == c.state && e.conn.socket == c.socket
            && (c.socket.Some? && c.socket.value !in l.writeFns ==> c.write == Moved)
  {
    hide Outgoing, SameElsewhere, Free;
    OutgoingSteps(l, 0, c, Success);
  }

  // ------------------------------------------------ a request behind such a poll

  /**
   * One request runs and another waits. Before the deadline of the first, which
   * is to come, a timeout changes nothing, and the poll after it has no limit.
   */
  ghost predicate Starved(env: Environment, u: System)
    requires Inv(u)
  {
    && |u.arrivals| == 2 && |u.attempts| == 1 && |u.queue| == 1
    && |u.conns| == 1 && 0 in u.pool && u.clock < u.conns[0].deadline
    && forall time :: time < u.conns[0].deadline ==>
         && PollWait(env, u, time) == -1
         && Run(env, u, Timeouts(u, time)) == u.(clock := Max(u.clock, time))
  }

  /**
   * A second request waits behind such a poll. If the forwarder stays silent and
   * no one asks again, its turn never comes.
   */
  lemma StarvedRun(env: Environment, start: System, asked: Event, sent: Event)
    requires env == Answers5() && start == Listening() && asked == ASKED && sent == SENT
    ensures Inv(start) && AllAdmissible([asked, sent, asked])
    ensures Starved(env, Run(env, start, [asked, sent, asked]))
  {
    SentFine(sent);
    hide *;
    AskedOnce(env, start, asked);
    RunThree(env, start, asked, sent, asked);
    RunTwo(env, start, asked, sent);
    SentOnce(env, Step(env, start, asked), sent);
    SentStarves(env, Run(env, start, [asked, sent]), asked);
  }

  lemma SentStarves(env: Environment, s: System, asked: Event)
    requires Inv(s) && Sent(s) && asked == ASKED
    ensures Admissible(asked) && Starved(env, Step(env, s, asked))
  {
    hide Inv, Step, Evolves, Starved;
    AnotherWaits(env, s, asked);
    FullStarves(env, Step(env, s, asked));
  }

  lemma FullStarves(env: Environment, u: System)
    requires Inv(u) && |u.queue| == 1 && |u.conns| == 1 && u.pool == [0] && u.clock == 0
    requires u.conns[0].deadline == 1 && u.conns[0].write == Moved
    ensures Starved(env, u)
  {
    ServedInOrder(u);
    hide Inv, PollWait, Run, Timeouts, Late;
    forall time | time < 1
      ensures PollWait(env, u, time) == -1 && Run(env, u, Timeouts(u, time)) == u.(clock := Max(u.clock, time))
    {
      NotYetLate(u, time);
      RepliesAwaited(env, u, time);
      NothingLate(env, u, time);
    }
  }

  lemma NotYetLate(u: System, time: int)
    requires |u.conns| == 1 && u.clock < u.conns[0].deadline && time < u.conns[0].deadline
    ensures Late(u, Max(u.clock, time)) == {}
  {
  }

  lemma RunThree(env: Environment, s: System, a: Event, b: Event, c: Event)
    requires Inv(s) && Admissible(a) && Admissible(b) && Admissible(c)
    ensures AllAdmissible([a, b]) && AllAdmissible([a, b, c])
    ensures Run(env, s, [a, b, c]) == Step(env, Run(env, s, [a, b]), c)
  {
    hide *;
    RunTwo(env, s, a, b);
    RunOne(env, Run(env, s, [a, b]), c);
    RunInParts(env, s, [a, b], [c]);
    assert [a, b] + [c] == [a, b, c];
  }
}
