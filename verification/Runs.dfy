// Every member of the pool and of a connection keeps the invariant, through all
// the sending it sets off; and exactly what a callback does and to whom.

module Runs {
  import opened Bytes
  import opened HandlerMaps
  import opened Connections
  import opened Systems
  import opened Invariants
  import opened Sending

  // ------------------------------------------------ the queue

  /** Room for exactly one, if anything waits. */
  predicate OneShort(s: System) {
    |s.pool| < s.limit && (s.queue != [] ==> |s.pool| + 1 == s.limit)
  }

  lemma {:induction false} SendRequestKeeps(env: Environment, s: System, q: Query)
    requires Core(s, {}) && InOrder(s, [q]) && OneShort(s) && q.request != []
    ensures Inv(SendRequest(env, s, q)) && Evolves(s, SendRequest(env, s, q))
    decreases |s.queue|, 1
  {
    hide Core, Evolves;
    TryOne(env, s, q);
    var id, made := |s.conns|, Construct(env, s.(attempts := s.attempts + [q]));
    var sent := Send(made.loop, id, made.conns[id], q.request);
    ConstructOrder(env, s.(attempts := s.attempts + [q]));
    assert (s.attempts + [q]) + [] == s.attempts + [q];
    if !sent.ok {
      DequeueKeeps(env, made);
      EvolvesTransitively(s, made, Dequeue(env, made));
    }
  }

  lemma ConstructOrder(env: Environment, s: System)
    ensures var t := Construct(env, s);
            && t.arrivals == s.arrivals && t.attempts == s.attempts && t.queue == s.queue
            && t.pool == s.pool && t.limit == s.limit
  {
  }

  lemma {:induction false} DequeueKeeps(env: Environment, s: System)
    requires Core(s, {}) && InOrder(s, []) && OneShort(s)
    ensures Inv(Dequeue(env, s)) && Evolves(s, Dequeue(env, s))
    decreases |s.queue|, 0
  {
    if s.queue != [] {
      CoreParts(s, {});
      hide Core, Evolves, SendRequest, InOrder, OneShort;
      var t, q := s.(queue := s.queue[1..]), s.queue[0];
      QueueKeeps(s, s.queue[1..]);
      Popped(s);
      SendRequestKeeps(env, t, q);
      EvolvesTransitively(s, t, SendRequest(env, t, q));
    }
  }

  /** Arrivals, replies and the queue can grow or shrink on their own. */
  lemma RecordKeeps(s: System, t: System, closing: set<nat>)
    requires Core(s, closing) && t == s.(arrivals := t.arrivals, replies := t.replies, queue := t.queue)
    requires s.arrivals <= t.arrivals && s.replies <= t.replies && Replied(t)
    requires forall k :: 0 <= k < |t.queue| ==> t.queue[k].request != []
    ensures Core(t, closing) && Evolves(s, t)
  {
    hide Replied, Wired;
    WiredAlike(s, t);
  }

  lemma QueueKeeps(s: System, queue: seq<Query>)
    requires Core(s, {}) && forall k :: 0 <= k < |queue| ==> queue[k].request != []
    ensures Core(s.(queue := queue), {}) && Evolves(s, s.(queue := queue))
  {
    SameReplies(s, s.(queue := queue));
    RecordKeeps(s, s.(queue := queue), {});
  }

  lemma ArrivalKeeps(s: System, q: Query)
    requires Core(s, {})
    ensures Core(s.(arrivals := s.arrivals + [q]), {}) && Evolves(s, s.(arrivals := s.arrivals + [q]))
  {
    SameReplies(s, s.(arrivals := s.arrivals + [q]));
    RecordKeeps(s, s.(arrivals := s.arrivals + [q]), {});
  }

  lemma HandleRequestKeeps(env: Environment, s: System, q: Query)
    requires Inv(s) && q.request != []
    ensures Inv(HandleRequest(env, s, q)) && Evolves(s, HandleRequest(env, s, q))
  {
    hide Core, Evolves, SendRequest;
    var t := s.(arrivals := s.arrivals + [q]);
    ArrivalKeeps(s, q);
    if |s.pool| < s.limit {
      assert s.attempts + [] + s.queue + [q] == s.attempts + [q] + s.queue;
      SendRequestKeeps(env, t, q);
      EvolvesTransitively(s, t, SendRequest(env, t, q));
    } else {
      EnqueueKeeps(s, t, q);
    }
  }

  lemma EnqueueKeeps(s: System, t: System, q: Query)
    requires Inv(s) && Core(t, {}) && Evolves(s, t) && t == s.(arrivals := s.arrivals + [q])
    requires q.request != [] && |s.pool| >= s.limit
    ensures Inv(t.(queue := s.queue + [q])) && Evolves(s, t.(queue := s.queue + [q]))
  {
    CoreParts(t, {});
    Queued(s, q);
    hide Core, Evolves, InOrder;
    QueueKeeps(t, s.queue + [q]);
    EvolvesTransitively(s, t, t.(queue := s.queue + [q]));
  }

  lemma Popped(s: System)
    requires InOrder(s, []) && OneShort(s) && s.queue != []
    ensures InOrder(s.(queue := s.queue[1..]), [s.queue[0]]) && OneShort(s.(queue := s.queue[1..]))
  {
    assert s.attempts + [] + s.queue == s.attempts + [s.queue[0]] + s.queue[1..];
  }

  lemma Queued(s: System, q: Query)
    requires InOrder(s, [])
    ensures InOrder(s.(arrivals := s.arrivals + [q], queue := s.queue + [q]), [])
  {
    assert (s.attempts + [] + s.queue) + [q] == s.attempts + [] + (s.queue + [q]);
  }

  // ------------------------------------------------ members of a connection

  /** A member ran to the call of m_shutdown, and the pool reacts if it is due. */
  lemma ConcludeKeeps(env: Environment, s: System, id: nat, due: bool)
    requires Core(s, if due then {id} else {}) && InOrder(s, []) && Busy(s)
    requires due ==> id < |s.conns| && s.conns[id].state.CLOSED? && s.conns[id].query.Some?
    ensures var t := if due then HandleShutdown(env, s, id) else s;
            Inv(t) && Evolves(s, t)
  {
    if due {
      var t := s.(pool := Erased(s.pool, id), fired := s.fired + [id]);
      assert id in s.pool;
      ShutdownKeeps(s, id);
      ErasedFrom(s.pool, id);
      DequeueKeeps(env, t);
      EvolvesTransitively(s, t, Dequeue(env, t));
    }
  }

  lemma FinishKeeps(env: Environment, s: System, id: nat, e: Effect)
    requires Inv(s) && id < |s.conns| && s.conns[id].socket.Some?
    requires Stepped(s.loop, id, s.conns[id], s.conns[id].socket.value, e)
    ensures Inv(Finish(env, s, id, e)) && Evolves(s, Finish(env, s, id, e))
  {
    SettleKeeps(s, id, e);
    ConcludeKeeps(env, Settle(s, id, e), id, e.due);
    EvolvesTransitively(s, Settle(s, id, e), Finish(env, s, id, e));
  }

  /** A first reply of a connection that is on its way out. */
  lemma ReplyKeeps(s: System, id: nat, q: Query, data: seq<byte>, closing: set<nat>)
    requires Core(s, closing) && id < |s.conns| && s.conns[id].query == Some(q)
    requires s.conns[id].state.Rank() >= SHUTTING_DOWN.Rank()
    requires forall k :: 0 <= k < |s.replies| ==> s.replies[k].id != id
    ensures Core(HandleIncoming(s, id, q, data), closing) && Evolves(s, HandleIncoming(s, id, q, data))
  {
    var t := HandleIncoming(s, id, q, data);
    ReplyReplied(s, id, q, data);
    hide Core, Replied, Systems.W.HasHeader;
    CoreParts(s, closing);
    RecordKeeps(s, t, closing);
  }

  lemma CoreParts(s: System, closing: set<nat>)
    requires Core(s, closing)
    ensures Replied(s) && |s.pool| <= s.limit && forall k :: 0 <= k < |s.queue| ==> s.queue[k].request != []
  {
  }

  lemma ReplyReplied(s: System, id: nat, q: Query, data: seq<byte>)
    requires Replied(s) && id < |s.conns| && s.conns[id].query == Some(q)
    requires s.conns[id].state.Rank() >= SHUTTING_DOWN.Rank()
    requires forall k :: 0 <= k < |s.replies| ==> s.replies[k].id != id
    ensures Replied(HandleIncoming(s, id, q, data))
  {
    var t := HandleIncoming(s, id, q, data);
    forall k | 0 <= k < |t.replies| ensures Answers(t, t.replies[k]) {
      if k < |s.replies| {
        assert Answers(s, s.replies[k]);
      }
    }
  }

  /** A reply arrived on an open connection: it is passed on, and the connection shuts down. */
  lemma DeliverKeeps(env: Environment, s: System, id: nat, data: seq<byte>, r: Result)
    requires Inv(s) && id < |s.conns| && s.conns[id].state.OPEN?
    ensures s.conns[id].query.Some? && s.conns[id].socket.Some?
    ensures var t := Finish(env, HandleIncoming(s, id, s.conns[id].query.value, data), id,
                            Shutdown(s.loop, id, s.conns[id], r));
            Inv(t) && Evolves(s, t)
  {
    OpenParts(s, id);
    hide Core, Evolves, Shutdown, HandleIncoming, Systems.Settle, Agrees, Stepped;
    var q, e := s.conns[id].query.value, Shutdown(s.loop, id, s.conns[id], r);
    ShutdownSteps(s.loop, id, s.conns[id], r);
    ShutdownDue(s.loop, id, s.conns[id], r);
    SettleThenReply(s, id, e, q, data);
    hide *;
    DeliveredKeeps(env, s, id, e, q, data);
  }

  lemma DeliveredKeeps(env: Environment, s: System, id: nat, e: Effect, q: Query, data: seq<byte>)
    requires Inv(s) && id < |s.conns| && (e.due <==> e.conn.state.CLOSED?) && e.conn.query.Some?
    requires var u := Settle(HandleIncoming(s, id, q, data), id, e);
             && Core(u, if e.due then {id} else {}) && Evolves(s, u)
             && u.conns[id] == e.conn && u.pool == s.pool && u.queue == s.queue && u.limit == s.limit
             && u.arrivals == s.arrivals && u.attempts == s.attempts
    ensures var t := Finish(env, HandleIncoming(s, id, q, data), id, e);
            Inv(t) && Evolves(s, t)
  {
    hide Core, Evolves;
    var u := Settle(HandleIncoming(s, id, q, data), id, e);
    ConcludeKeeps(env, u, id, e.due);
    EvolvesTransitively(s, u, Finish(env, HandleIncoming(s, id, q, data), id, e));
  }

  /** An open connection has its request, and no reply yet. */
  lemma OpenParts(s: System, id: nat)
    requires Core(s, {}) && id < |s.conns| && s.conns[id].state.OPEN?
    ensures Agrees(s.loop, id, s.conns[id]) && s.conns[id].query.Some? && s.conns[id].socket.Some?
    ensures forall k :: 0 <= k < |s.replies| ==> s.replies[k].id != id
  {
    assert Agrees(s.loop, id, s.conns[id]);
    assert forall k :: 0 <= k < |s.replies| ==> Answers(s, s.replies[k]);
  }

  lemma ShutdownDue(l: Handlers, id: nat, c: Connection, r: Result)
    requires Agrees(l, id, c) && c.state.OPEN? && c.query.Some?
    ensures var e := Shutdown(l, id, c, r);
            && e.conn.state.Rank() >= SHUTTING_DOWN.Rank() && e.conn.query == c.query
            && (e.due <==> e.conn.state.CLOSED?)
  {
    hide Agrees, Shutdown, SameElsewhere, Free;
    ShutdownSteps(l, id, c, r);
  }

  lemma SettleThenReply(s: System, id: nat, e: Effect, q: Query, data: seq<byte>)
    requires Core(s, {}) && id < |s.conns| && s.conns[id].socket.Some? && s.conns[id].query == Some(q)
    requires Stepped(s.loop, id, s.conns[id], s.conns[id].socket.value, e)
    requires e.conn.state.Rank() >= SHUTTING_DOWN.Rank()
    requires forall k :: 0 <= k < |s.replies| ==> s.replies[k].id != id
    ensures var u := Settle(HandleIncoming(s, id, q, data), id, e);
            && Core(u, if e.due then {id} else {}) && Evolves(s, u)
            && u.conns[id] == e.conn && u.pool == s.pool && u.queue == s.queue && u.limit == s.limit
            && u.arrivals == s.arrivals && u.attempts == s.attempts
  {
    SettleKeeps(s, id, e);
    var t, u := Settle(s, id, e), Settle(HandleIncoming(s, id, q, data), id, e);
    assert u == HandleIncoming(t, id, q, data);
    hide Core, Evolves, Stepped;
    ReplyKeeps(t, id, q, data, if e.due then {id} else {});
    EvolvesTransitively(s, t, u);
  }

  /** The state in which a member is bound. */
  predicate Fitting(a: Action, st: State) {
    match a
    case Handshake => st.CONNECTING?
    case Receive => st.OPEN?
    case Transmit => st.OPEN?
    case Goodbye => st.SHUTTING_DOWN?
    case Abort => !st.CLOSED?
  }

  lemma ActKeeps(env: Environment, s: System, id: nat, a: Action, o: Outcome)
    requires Inv(s) && id < |s.conns| && Fitting(a, s.conns[id].state)
    ensures Ready(s, id, a)
    ensures Inv(Act(env, s, id, a, o)) && Evolves(s, Act(env, s, id, a, o))
  {
    var c := s.conns[id];
    assert Agrees(s.loop, id, c);
    match a
    case Handshake =>
      ConnectSteps(s.loop, id, c, o.result);
      FinishKeeps(env, s, id, Connect(s.loop, id, c, o.result));
    case Receive =>
      if o.result.Success? && o.data != [] && c.query.Some? {
        DeliverKeeps(env, s, id, o.data, o.goodbye);
      } else {
        IncomingSteps(s.loop, id, c, o.result);
        FinishKeeps(env, s, id, Incoming(s.loop, c, o.result));
      }
    case Transmit =>
      OutgoingSteps(s.loop, id, c, o.result);
      FinishKeeps(env, s, id, Outgoing(s.loop, c, o.result));
    case Goodbye =>
      GoodbyeSteps(s.loop, id, c, o.result);
      FinishKeeps(env, s, id, SayGoodbye(s.loop, id, c, o.result));
    case Abort =>
      ExceptSteps(s.loop, id, c);
      FinishKeeps(env, s, id, Except(s.loop, c));
  }

  // ------------------------------------------------ what the re-entrant sending leaves alone

  /** The record of what older connections did, and what the process was started with. */
  ghost predicate OnlyNewer(s: System, t: System) {
    && t.servers == s.servers && |t.forwarders| == |s.forwarders|
    && t.replies == s.replies && t.fired == s.fired && t.arrivals == s.arrivals
    && s.conns <= t.conns && s.blamed <= t.blamed
    && forall id: nat :: id < |s.conns| && id in t.blamed ==> id in s.blamed
  }

  lemma {:induction false} SendRequestOnlyNewer(env: Environment, s: System, q: Query)
    ensures OnlyNewer(s, SendRequest(env, s, q))
    decreases |s.queue|, 1
  {
    var made := Construct(env, s.(attempts := s.attempts + [q]));
    if !Send(made.loop, |s.conns|, made.conns[|s.conns|], q.request).ok {
      DequeueOnlyNewer(env, made);
    }
  }

  lemma {:induction false} DequeueOnlyNewer(env: Environment, s: System)
    ensures OnlyNewer(s, Dequeue(env, s))
    decreases |s.queue|, 0
  {
    if s.queue != [] {
      SendRequestOnlyNewer(env, s.(queue := s.queue[1..]), s.queue[0]);
    }
  }

  /**
   * A request that comes is one more arrival, whatever becomes of it; and when
   * the pool is full that is all, but that it waits behind the others.
   */
  lemma HandleRequestArrives(env: Environment, s: System, q: Query)
    ensures var t := HandleRequest(env, s, q);
            && t.arrivals == s.arrivals + [q] && t.replies == s.replies && t.servers == s.servers
            && (|s.pool| >= s.limit ==> t == s.(arrivals := s.arrivals + [q], queue := s.queue + [q]))
  {
    hide SendRequest;
    SendRequestOnlyNewer(env, s.(arrivals := s.arrivals + [q]), q);
  }

  /** Only connection `id` changes. */
  lemma FinishOthers(env: Environment, s: System, id: nat, e: Effect)
    requires id < |s.conns|
    ensures s.conns[id := e.conn] <= Finish(env, s, id, e).conns
    ensures Finish(env, s, id, e).servers == s.servers && Finish(env, s, id, e).arrivals == s.arrivals
    ensures |Finish(env, s, id, e).forwarders| == |s.forwarders|
  {
    if e.due {
      var settled := Settle(s, id, e);
      DequeueOnlyNewer(env, settled.(pool := Erased(settled.pool, id), fired := settled.fired + [id]));
    }
  }

  lemma FinishExact(env: Environment, s: System, id: nat, e: Effect)
    requires id < |s.conns|
    ensures var t := Finish(env, s, id, e);
            && |s.conns| <= |t.conns| && t.conns[id] == e.conn && t.replies == s.replies
            && t.fired == s.fired + (if e.due then [id] else [])
            && (id in t.blamed <==> e.bad || id in s.blamed)
  {
    var settled := Settle(s, id, e);
    if e.due {
      var t := settled.(pool := Erased(settled.pool, id), fired := settled.fired + [id]);
      DequeueOnlyNewer(env, t);
      assert t.conns[id] == Dequeue(env, t).conns[id];
      var u := Dequeue(env, t);
      assert u.blamed == t.blamed + u.blamed[|t.blamed|..];
    }
  }

  /** The member closes its connection when TLS answers like this. */
  predicate Closes(a: Action, o: Outcome) {
    match a
    case Receive =>
      if o.result.Success? && o.data != [] then !o.goodbye.NeedRead? && !o.goodbye.NeedWrite?
      else o.result.Fatal? || o.result.Hangup?
    case Goodbye => !o.result.NeedRead? && !o.result.NeedWrite?
    case Abort => true
    case _ => o.result.Fatal? || o.result.Hangup?
  }

  /** setBad is called on exactly these occasions by a connection that is called back. */
  predicate Blames(a: Action, st: State, r: Result) {
    match a
    case Abort => st.CONNECTING?
    case Goodbye => false
    case _ => r.Fatal?
  }

  /** A reply is passed on when data came, the packet is valid, and never otherwise. */
  predicate Delivers(a: Action, o: Outcome) {
    a.Receive? && o.result.Success? && o.data != [] && Systems.W.HasHeader(o.data)
  }

  /** What a called-back member does to its connection and the loop, up to its m_shutdown. */
  function Effected(s: System, id: nat, a: Action, o: Outcome): Effect
    requires Ready(s, id, a)
  {
    var c := s.conns[id];
    match a
    case Handshake => Connect(s.loop, id, c, o.result)
    case Receive =>
      if o.result.Success? && o.data != [] && c.query.Some? then Shutdown(s.loop, id, c, o.goodbye)
      else Incoming(s.loop, c, o.result)
    case Transmit => Outgoing(s.loop, c, o.result)
    case Goodbye => SayGoodbye(s.loop, id, c, o.result)
    case Abort => Except(s.loop, c)
  }

  /** The state once data that came has been passed on. */
  function Passed(s: System, id: nat, a: Action, o: Outcome): System
    requires id < |s.conns|
  {
    if a.Receive? && o.result.Success? && o.data != [] && s.conns[id].query.Some? then
      HandleIncoming(s, id, s.conns[id].query.value, o.data)
    else s
  }

  lemma ActFinishes(env: Environment, s: System, id: nat, a: Action, o: Outcome)
    requires Ready(s, id, a)
    ensures Passed(s, id, a, o) == s.(replies := Passed(s, id, a, o).replies)
    ensures Act(env, s, id, a, o) == Finish(env, Passed(s, id, a, o), id, Effected(s, id, a, o))
  {
    hide Finish, HandleShutdown, Connect, Incoming, Outgoing, SayGoodbye, Except, Shutdown;
  }

  lemma EffectSteps(s: System, id: nat, a: Action, o: Outcome)
    requires Inv(s) && id < |s.conns| && Fitting(a, s.conns[id].state) && Ready(s, id, a)
    ensures s.conns[id].socket.Some? && s.conns[id].query.Some?
    ensures var c, e := s.conns[id], Effected(s, id, a, o);
            && Stepped(s.loop, id, c, c.socket.value, e)
            && (e.conn.state.CLOSED? <==> Closes(a, o)) && (e.conn.state.CLOSED? ==> e.conn.socket.None? && e.due)
            && (e.bad <==> Blames(a, c.state, o.result)) && e.due == Closes(a, o)
  {
    var c := s.conns[id];
    assert Agrees(s.loop, id, c);
    assert c.query.Some?;
    hide Inv, Connect, Incoming, Outgoing, SayGoodbye, Except, Shutdown, BoundAt, SameElsewhere, Free;
    match a
    case Handshake => ConnectSteps(s.loop, id, c, o.result);
    case Receive =>
      if o.result.Success? && o.data != [] {
        ShutdownSteps(s.loop, id, c, o.goodbye);
      } else {
        IncomingSteps(s.loop, id, c, o.result);
      }
    case Transmit => OutgoingSteps(s.loop, id, c, o.result);
    case Goodbye => GoodbyeSteps(s.loop, id, c, o.result);
    case Abort => ExceptSteps(s.loop, id, c);
  }

  /** What a callback does to its own connection and to the record, whatever sending it sets off. */
  lemma ActExact(env: Environment, s: System, id: nat, a: Action, o: Outcome)
    requires Inv(s) && id < |s.conns| && Fitting(a, s.conns[id].state) && Ready(s, id, a)
    ensures s.conns[id].query.Some?
    ensures var t, c := Act(env, s, id, a, o), s.conns[id];
            && |s.conns| <= |t.conns|
            && (id in t.blamed <==> Blames(a, c.state, o.result))
            && (id in t.fired <==> t.conns[id].state.CLOSED?)
            && t.replies == s.replies + if Delivers(a, o) then
                 [Reply(id, c.query.value.socket, c.query.value.client, c.query.value.server,
                        c.query.value.interface, o.data)]
               else []
  {
    assert id !in s.blamed && id !in s.fired;
    hide Inv, Effected, Finish, Stepped, Systems.W.HasHeader;
    EffectSteps(s, id, a, o);
    ActFinishes(env, s, id, a, o);
    FinishExact(env, Passed(s, id, a, o), id, Effected(s, id, a, o));
  }
}
