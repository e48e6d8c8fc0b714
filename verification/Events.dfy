// What an event does to the whole, told without the loop: from the connections,
// from what TLS answers, and from what the environment has for the connections
// that sending makes. It leaves exactly one state.

module Events {
  import opened HandlerMaps
  import opened ForwarderConfigs
  import opened Connections
  import opened Systems
  import opened Invariants
  import opened Runs
  import opened Executions
  import opened Reports
  import opened Births

  // ------------------------------------------------ the connection that is called back

  /** Waiting to read, unless TLS asked to write. */
  function Waiting(c: Connection, h: int, r: Result): Connection {
    if r.NeedWrite? then c.(read := Moved, write := Write(h)) else c.(read := Read(h), write := Moved)
  }

  /** A connection after one of its members ran: the state, what it waits for, and what is left to write. */
  function After(c: Connection, a: Action, o: Outcome): Connection
    requires c.socket.Some?
  {
    var h := c.socket.value;
    if Closes(a, o) then c.(state := CLOSED, socket := None, read := Moved, write := Moved, exception := Moved)
    else
      match a
      case Handshake =>
        if o.result.Success? then
          c.(state := OPEN, read := Read(h), write := if c.buffer != [] then Write(h) else Moved)
        else Waiting(c, h, o.result)
      case Receive =>
        if o.result.Success? && o.data != [] then Waiting(c.(state := SHUTTING_DOWN), h, o.goodbye) else c
      case Transmit => if o.result.Success? then c.(buffer := [], write := Moved) else c
      case Goodbye => Waiting(c, h, o.result)
      case Abort => c
  }

  /** Members leave the buffer alone, but for a write that succeeds. */
  lemma EffectBuffer(s: System, id: nat, a: Action, o: Outcome)
    requires Ready(s, id, a)
    ensures Effected(s, id, a, o).conn.buffer
            == if a.Transmit? && o.result.Success? then [] else s.conns[id].buffer
  {
  }

  /** The registers and the maps do to the connection just what the table says. */
  lemma EffectAfter(s: System, id: nat, a: Action, o: Outcome)
    requires Inv(s) && id < |s.conns| && Fitting(a, s.conns[id].state) && Ready(s, id, a)
    ensures s.conns[id].socket.Some? && Effected(s, id, a, o).conn == After(s.conns[id], a, o)
  {
    EffectSteps(s, id, a, o);
    EffectBuffer(s, id, a, o);
    if !Closes(a, o) {
      EffectWrites(s, id, a, o);
      EffectState(s, id, a, o);
    }
    assert Agrees(s.loop, id, s.conns[id]);
    hide Inv, Effected, BoundAt, SameElsewhere, Free;
  }

  lemma EffectState(s: System, id: nat, a: Action, o: Outcome)
    requires Inv(s) && id < |s.conns| && Fitting(a, s.conns[id].state) && Ready(s, id, a) && !Closes(a, o)
    ensures s.conns[id].socket.Some? && Effected(s, id, a, o).conn.state == After(s.conns[id], a, o).state
  {
    var c := s.conns[id];
    assert Agrees(s.loop, id, c) && c.query.Some?;
    hide Inv, Connect, Incoming, Outgoing, SayGoodbye, Except, Shutdown, BoundAt, SameElsewhere, Free;
    match a
    case Handshake => ConnectSteps(s.loop, id, c, o.result);
    case Receive =>
      if o.result.Success? && o.data != [] {
        ShutdownSteps(s.loop, id, c, o.goodbye);
      } else {
        IncomingSteps(s.loop, id, c, o.result);
      }
    case Transmit => OutgoingSteps(s.loop, id, c, o.result);
    case Goodbye => GoodbyeSteps(s.loop, id, c, o.result);
    case Abort =>
  }

  // ------------------------------------------------ what an event leaves

  /** From `s` to `t`, what waits to be sent was sent up to the first connection that opens. */
  ghost predicate Sends(env: Environment, s: System, todo: seq<Query>, t: System) {
    && s.conns <= t.conns
    && Made(env, s, OpenHandles(s), |todo|, t) && Started(env, s, t)
    && Charged(env, s, OpenHandles(s), t) && Carried(env, s, OpenHandles(s), todo, t)
  }

  /** A request has come: it is tried when there is room, and waits behind the others when there is none. */
  ghost predicate Asked(env: Environment, s: System, q: Query, t: System) {
    var arrived := s.(arrivals := s.arrivals + [q]);
    if |s.pool| < s.limit then Sends(env, arrived, [q] + s.queue, t) else t == arrived.(queue := s.queue + [q])
  }

  /**
   * The record once a member of connection `id` has run: the reply it passed on,
   * its call of setBad, and, when it closed, its m_shutdown.
   */
  function Recorded(s: System, id: nat, a: Action, o: Outcome): System
    requires id < |s.conns| && s.conns[id].socket.Some?
  {
    var c := s.conns[id];
    var bad, closes := Blames(a, c.state, o.result), Closes(a, o);
    s.(conns := s.conns[id := After(c, a, o)], replies := s.replies + Answered(s, id, a, o),
       blamed := s.blamed + (if bad then [id] else []), failures := s.failures + (if bad then [c.remote] else []),
       forwarders := if bad then Demoted(s.forwarders, c.remote) else s.forwarders,
       pool := if closes then Erased(s.pool, id) else s.pool, fired := s.fired + if closes then [id] else [])
  }

  /** A member was called: that, and when the connection closed, what waits is sent. */
  ghost predicate Told(env: Environment, s: System, id: nat, a: Action, o: Outcome, t: System)
    requires id < |s.conns| && s.conns[id].socket.Some?
  {
    var r := Recorded(s, id, a, o);
    if Closes(a, o) then Sends(env, r, s.queue, t) else t == r.(loop := t.loop)
  }

  /**
   * The member of connection `i` that an event calls. Reading and writing reach
   * the connection that waits for it on the handle, with the member that its
   * state calls for; a failure reaches the connection that has the handle.
   */
  function Called(s: System, e: Event, i: nat): Option<Action>
    requires i < |s.conns|
  {
    var c := s.conns[i];
    match e
    case Readable(h, o) => if c.read == Read(h) then Some(ReadAction(c.state)) else None
    case Writable(h, o) => if c.write == Write(h) then Some(WriteAction(c.state)) else None
    case Failed(h) => if c.socket == Some(h) then Some(Abort) else None
    case _ => None
  }

  /** What TLS answers meanwhile. */
  function Answer(e: Event): Outcome {
    match e
    case Readable(h, o) => o
    case Writable(h, o) => o
    case _ => NOTHING
  }

  ghost predicate NoneCalled(s: System, e: Event) {
    forall i: nat :: i < |s.conns| ==> Called(s, e, i).None?
  }

  /** What each event leaves. */
  ghost predicate Leaves(env: Environment, s: System, e: Event, t: System) {
    && (forall i: nat :: i < |s.conns| && Called(s, e, i).Some? ==>
          s.conns[i].socket.Some? && Told(env, s, i, Called(s, e, i).value, Answer(e), t))
    && (NoneCalled(s, e) ==>
          match e
          case Readable(h, o) =>
            if h in s.servers && o.request.Some? then Asked(env, s, o.request.value, t) else t == s
          case Tick(now) => t == s.(clock := Max(s.clock, now))
          case Retire => t == s.(servers := {}, loop := t.loop)
          case _ => t == s)
  }

  // ------------------------------------------------ sending

  /** Neither the loop nor what is tried before matters to what sending makes. */
  lemma SendsAlike(env: Environment, s: System, u: System, todo: seq<Query>, t: System)
    requires Sends(env, u, todo, t) && s == u.(loop := s.loop, queue := s.queue)
    ensures Sends(env, s, todo, t)
  {
    SameHandles(s, u);
    hide OpenHandles, Opens;
  }

  lemma SendRequestSends(env: Environment, s: System, q: Query)
    requires Core(s, {}) && OneShort(s) && q.request != []
    ensures Sends(env, s, [q] + s.queue, SendRequest(env, s, q))
  {
    hide Core, Made, Started, Charged, Carried, SendRequest, OpenHandles;
    SendRequestMakes(env, s, q);
    SendRequestStarts(env, s, q);
    SendRequestCharges(env, s, q);
    SendRequestCarries(env, s, q);
  }

  lemma DequeueSends(env: Environment, s: System)
    requires Core(s, {}) && OneShort(s)
    ensures Sends(env, s, s.queue, Dequeue(env, s))
  {
    hide Core, Made, Started, Charged, Carried, Dequeue, OpenHandles;
    DequeueMakes(env, s);
    DequeueStarts(env, s);
    DequeueCharges(env, s);
    DequeueCarries(env, s);
  }

  lemma HandleRequestAsked(env: Environment, s: System, q: Query)
    requires Inv(s) && q.request != []
    ensures Asked(env, s, q, HandleRequest(env, s, q))
  {
    var arrived := s.(arrivals := s.arrivals + [q]);
    ArrivalKeeps(s, q);
    assert |s.pool| < s.limit ==> s.queue == [] && OneShort(arrived);
    hide Core, Sends, SendRequest;
    if |s.pool| < s.limit {
      SendRequestSends(env, arrived, q);
    }
  }

  /** Up to the sending, what a member does to the record. */
  lemma RecordedIs(s: System, id: nat, a: Action, o: Outcome)
    requires Inv(s) && id < |s.conns| && Fitting(a, s.conns[id].state) && Ready(s, id, a)
    ensures s.conns[id].socket.Some? && Effected(s, id, a, o).due == Closes(a, o)
    ensures var e := Effected(s, id, a, o);
            var settled := Settle(Passed(s, id, a, o), id, e);
            Recorded(s, id, a, o) == (if e.due then settled.(pool := Erased(s.pool, id), fired := s.fired + [id])
                                      else settled).(loop := s.loop)
  {
    EffectSteps(s, id, a, o);
    EffectAfter(s, id, a, o);
    PassedReplies(s, id, a, o);
    hide Inv, Effected, Erased, Stepped, Demoted, Answered, Passed;
    assert After(s.conns[id], a, o).remote == s.conns[id].remote;
  }

  lemma PassedReplies(s: System, id: nat, a: Action, o: Outcome)
    requires id < |s.conns| && s.conns[id].query.Some?
    ensures Passed(s, id, a, o) == s.(replies := s.replies + Answered(s, id, a, o))
  {
  }

  /** A called-back member and its m_shutdown. */
  lemma ActTold(env: Environment, s: System, id: nat, a: Action, o: Outcome)
    requires Inv(s) && id < |s.conns| && Fitting(a, s.conns[id].state) && Ready(s, id, a)
    ensures s.conns[id].socket.Some? && Told(env, s, id, a, o, Act(env, s, id, a, o))
  {
    RecordedIs(s, id, a, o);
    ActFinishes(env, s, id, a, o);
    var u, e := Passed(s, id, a, o), Effected(s, id, a, o);
    hide Inv, Act, Effected, Passed, Closes, Dequeue, Sends, Core, Erased, Recorded, Settle;
    if e.due {
      var x := Settle(u, id, e).(pool := Erased(s.pool, id), fired := s.fired + [id]);
      DueCore(s, id, a, o);
      DequeueSends(env, x);
      SettledParts(u, id, e);
      SendsAlike(env, Recorded(s, id, a, o), x, s.queue, Finish(env, u, id, e));
    }
  }

  lemma SettledParts(s: System, id: nat, e: Effect)
    requires id < |s.conns|
    ensures Settle(s, id, e).pool == s.pool && Settle(s, id, e).fired == s.fired && Settle(s, id, e).queue == s.queue
  {
  }

  // ------------------------------------------------ events

  /** The handlers that lead to a connection, from the connection. */
  lemma Reached(s: System, h: int, i: nat)
    requires Inv(s) && i < |s.conns|
    ensures s.conns[i].read == Read(h) ==>
              && h in s.loop.readFns && s.loop.readFns[h].callback == Bound(i, ReadAction(s.conns[i].state))
              && s.conns[i].socket.Some? && h !in s.servers
    ensures s.conns[i].write == Write(h) ==>
              && h in s.loop.writeFns && s.loop.writeFns[h].callback == Bound(i, WriteAction(s.conns[i].state))
              && s.conns[i].socket.Some?
    ensures s.conns[i].socket == Some(h) ==> h in s.loop.exceptFns && s.loop.exceptFns[h] == Bound(i, Abort)
  {
    assert Agrees(s.loop, i, s.conns[i]);
    ServersServe(s, h);
  }

  /** And from the handlers. */
  lemma Leading(s: System, h: int)
    requires Inv(s)
    ensures h in s.loop.readFns && s.loop.readFns[h].callback.Bound? ==>
              var cb := s.loop.readFns[h].callback; cb.id < |s.conns| && s.conns[cb.id].read == Read(h)
    ensures h in s.loop.writeFns ==>
              var cb := s.loop.writeFns[h].callback;
              cb.Bound? && cb.id < |s.conns| && s.conns[cb.id].write == Write(h)
    ensures h in s.loop.exceptFns ==>
              var cb := s.loop.exceptFns[h]; cb.Bound? && cb.id < |s.conns| && s.conns[cb.id].socket == Some(h)
  {
    HandlersOwned(s, h);
    BoundFits(s, h);
    forall i | 0 <= i < |s.conns| ensures Agrees(s.loop, i, s.conns[i]) {
    }
  }

  lemma ReaderTold(env: Environment, s: System, h: int, o: Outcome, i: nat)
    requires Inv(s) && Admissible(Readable(h, o)) && i < |s.conns| && s.conns[i].read == Read(h)
    ensures s.conns[i].socket.Some?
    ensures Told(env, s, i, ReadAction(s.conns[i].state), o, Step(env, s, Readable(h, o)))
  {
    hide *;
    ReaderCalled(env, s, h, o, i);
    ActTold(env, s, i, ReadAction(s.conns[i].state), o);
  }

  lemma ReaderCalled(env: Environment, s: System, h: int, o: Outcome, i: nat)
    requires Inv(s) && Admissible(Readable(h, o)) && i < |s.conns| && s.conns[i].read == Read(h)
    ensures var a := ReadAction(s.conns[i].state);
            Fitting(a, s.conns[i].state) && Ready(s, i, a) && Step(env, s, Readable(h, o)) == Act(env, s, i, a, o)
  {
    BoundFits(s, h);
    Reached(s, h, i);
    hide Inv, Evolves, Act, Fitting, Ready, Admissible;
  }

  lemma ServerAsked(env: Environment, s: System, h: int, o: Outcome)
    requires Inv(s) && Admissible(Readable(h, o)) && h in s.servers
    ensures var t := Step(env, s, Readable(h, o));
            if o.request.Some? then Asked(env, s, o.request.value, t) else t == s
  {
    ServersServe(s, h);
    hide Inv, Evolves, HandleRequest, Asked;
    if o.request.Some? {
      HandleRequestAsked(env, s, o.request.value);
    }
  }

  lemma NobodyReads(env: Environment, s: System, h: int, o: Outcome)
    requires Inv(s) && Admissible(Readable(h, o)) && h !in s.servers && NoneCalled(s, Readable(h, o))
    ensures Step(env, s, Readable(h, o)) == s
  {
    ServersServe(s, h);
    Leading(s, h);
    hide Inv, Evolves, Invoke, Admissible;
    forall i: nat | i < |s.conns| ensures s.conns[i].read != Read(h) {
      assert Called(s, Readable(h, o), i).None?;
    }
  }

  lemma WriterTold(env: Environment, s: System, h: int, o: Outcome, i: nat)
    requires Inv(s) && Admissible(Writable(h, o)) && i < |s.conns| && s.conns[i].write == Write(h)
    ensures s.conns[i].socket.Some?
    ensures Told(env, s, i, WriteAction(s.conns[i].state), o, Step(env, s, Writable(h, o)))
  {
    hide *;
    WriterCalled(env, s, h, o, i);
    ActTold(env, s, i, WriteAction(s.conns[i].state), o);
  }

  lemma WriterCalled(env: Environment, s: System, h: int, o: Outcome, i: nat)
    requires Inv(s) && Admissible(Writable(h, o)) && i < |s.conns| && s.conns[i].write == Write(h)
    ensures var a := WriteAction(s.conns[i].state);
            Fitting(a, s.conns[i].state) && Ready(s, i, a) && Step(env, s, Writable(h, o)) == Act(env, s, i, a, o)
  {
    BoundFits(s, h);
    Reached(s, h, i);
    hide Inv, Evolves, Act, Fitting, Ready, Admissible;
  }

  lemma NobodyWrites(env: Environment, s: System, h: int, o: Outcome)
    requires Inv(s) && Admissible(Writable(h, o)) && NoneCalled(s, Writable(h, o))
    ensures Step(env, s, Writable(h, o)) == s
  {
    Leading(s, h);
    hide Inv, Evolves, Invoke, Admissible;
    forall i: nat | i < |s.conns| ensures s.conns[i].write != Write(h) {
      assert Called(s, Writable(h, o), i).None?;
    }
  }

  lemma FailureTold(env: Environment, s: System, h: int, i: nat)
    requires Inv(s) && i < |s.conns| && s.conns[i].socket == Some(h)
    ensures Told(env, s, i, Abort, NOTHING, Step(env, s, Failed(h)))
  {
    StillOpen(s, i, h);
    hide Inv, Evolves, Step, Act, Told, Ready;
    StepAborts(env, s, i, h);
    ActTold(env, s, i, Abort, NOTHING);
  }

  lemma NobodyFails(env: Environment, s: System, h: int)
    requires Inv(s) && NoneCalled(s, Failed(h))
    ensures Step(env, s, Failed(h)) == s
  {
    Leading(s, h);
    hide Inv, Evolves, Invoke;
    forall i: nat | i < |s.conns| ensures s.conns[i].socket != Some(h) {
      assert Called(s, Failed(h), i).None?;
    }
  }

  lemma CalledTold(env: Environment, s: System, e: Event, i: nat)
    requires Inv(s) && Admissible(e) && i < |s.conns| && Called(s, e, i).Some?
    ensures s.conns[i].socket.Some? && Told(env, s, i, Called(s, e, i).value, Answer(e), Step(env, s, e))
  {
    hide Inv, Evolves, Step, Told, Admissible;
    match e
    case Readable(h, o) => ReaderTold(env, s, h, o, i);
    case Writable(h, o) => WriterTold(env, s, h, o, i);
    case Failed(h) => FailureTold(env, s, h, i);
    case Tick(now) =>
    case Retire =>
  }

  lemma NobodyTold(env: Environment, s: System, e: Event)
    requires Inv(s) && Admissible(e) && NoneCalled(s, e)
    ensures var t := Step(env, s, e);
            match e
            case Readable(h, o) =>
              if h in s.servers && o.request.Some? then Asked(env, s, o.request.value, t) else t == s
            case Tick(now) => t == s.(clock := Max(s.clock, now))
            case Retire => t == s.(servers := {}, loop := t.loop)
            case _ => t == s
  {
    hide Inv, Evolves, Asked, NoneCalled, Invoke, LetGo, Admissible;
    match e
    case Readable(h, o) =>
      if h in s.servers {
        ServerAsked(env, s, h, o);
      } else {
        NobodyReads(env, s, h, o);
      }
    case Writable(h, o) => NobodyWrites(env, s, h, o);
    case Failed(h) => NobodyFails(env, s, h);
    case Tick(now) =>
    case Retire =>
  }

  lemma StepLeaves(env: Environment, s: System, e: Event)
    requires Inv(s) && Admissible(e)
    ensures Leaves(env, s, e, Step(env, s, e))
  {
    hide Inv, Evolves, Step, Told, Asked, NoneCalled, Called, Answer, Admissible;
    forall i: nat | i < |s.conns| && Called(s, e, i).Some?
      ensures s.conns[i].socket.Some? && Told(env, s, i, Called(s, e, i).value, Answer(e), Step(env, s, e))
    {
      CalledTold(env, s, e, i);
    }
    if NoneCalled(s, e) {
      NobodyTold(env, s, e);
    }
  }

  // ------------------------------------------------ nothing else

  /** The handlers in the loop are told by the connections and the listening sockets. */
  lemma LoopTold(t: System, u: System)
    requires Inv(t) && Inv(u) && u.conns == t.conns && u.servers == t.servers
    ensures u.loop == t.loop
  {
    hide Inv;
    forall h
      ensures h in t.loop.readFns <==> h in u.loop.readFns
      ensures h in t.loop.readFns ==> u.loop.readFns[h] == t.loop.readFns[h]
      ensures h in t.loop.writeFns <==> h in u.loop.writeFns
      ensures h in t.loop.writeFns ==> u.loop.writeFns[h] == t.loop.writeFns[h]
      ensures h in t.loop.exceptFns <==> h in u.loop.exceptFns
      ensures h in t.loop.exceptFns ==> u.loop.exceptFns[h] == t.loop.exceptFns[h]
    {
      HandlersIn(t, u, h);
      HandlersIn(u, t, h);
    }
    assert u.loop.readFns == t.loop.readFns;
    assert u.loop.writeFns == t.loop.writeFns;
    assert u.loop.exceptFns == t.loop.exceptFns;
  }

  lemma HandlersIn(t: System, u: System, h: int)
    requires Inv(t) && Inv(u) && u.conns == t.conns && u.servers == t.servers
    ensures h in t.loop.readFns ==> h in u.loop.readFns && u.loop.readFns[h] == t.loop.readFns[h]
    ensures h in t.loop.writeFns ==> h in u.loop.writeFns && u.loop.writeFns[h] == t.loop.writeFns[h]
    ensures h in t.loop.exceptFns ==> h in u.loop.exceptFns && u.loop.exceptFns[h] == t.loop.exceptFns[h]
  {
    Leading(t, h);
    ServersServe(t, h);
    ServersServe(u, h);
    ServesEndlessly(t, h);
    ServesEndlessly(u, h);
    hide Inv;
    if h in t.loop.readFns && t.loop.readFns[h].callback.Bound? {
      EntriesAt(t, h, t.loop.readFns[h].callback.id);
      EntriesAt(u, h, t.loop.readFns[h].callback.id);
    }
    if h in t.loop.writeFns {
      EntriesAt(t, h, t.loop.writeFns[h].callback.id);
      EntriesAt(u, h, t.loop.writeFns[h].callback.id);
    }
    if h in t.loop.exceptFns {
      EntriesAt(t, h, t.loop.exceptFns[h].id);
      EntriesAt(u, h, t.loop.exceptFns[h].id);
    }
  }

  lemma ServesEndlessly(t: System, h: int)
    requires Inv(t)
    ensures h in t.servers ==> h in t.loop.readFns && t.loop.readFns[h] == Entry(Serve, 0)
  {
  }

  lemma EntriesAt(t: System, h: int, i: nat)
    requires Inv(t) && i < |t.conns|
    ensures var c := t.conns[i];
            && (c.read == Read(h) ==>
                  h in t.loop.readFns && t.loop.readFns[h] == Entry(Bound(i, ReadAction(c.state)), c.deadline))
            && (c.write == Write(h) ==>
                  h in t.loop.writeFns && t.loop.writeFns[h] == Entry(Bound(i, WriteAction(c.state)), c.deadline))
            && (c.socket == Some(h) ==> h in t.loop.exceptFns && t.loop.exceptFns[h] == Bound(i, Abort))
  {
    assert Agrees(t.loop, i, t.conns[i]);
  }

  /** What was sent is told, too. */
  lemma SendsOnce(env: Environment, s: System, todo: seq<Query>, t: System, u: System)
    requires Inv(t) && Inv(u) && Sends(env, s, todo, t) && Sends(env, s, todo, u)
    ensures u == t
  {
    hide Inv, Made, Started, Charged, Carried, OpenHandles;
    BirthsOnce(env, s, todo, t, u);
    RecordOnce(env, s, OpenHandles(s), todo, t, u);
    LoopTold(t, u);
  }

  lemma RecordOnce(env: Environment, s: System, used: set<int>, todo: seq<Query>, t: System, u: System)
    requires Started(env, s, t) && Charged(env, s, used, t) && Carried(env, s, used, todo, t)
    requires Started(env, s, u) && Charged(env, s, used, u) && Carried(env, s, used, todo, u)
    requires |t.conns| == |u.conns|
    ensures u == t.(loop := u.loop, conns := u.conns)
  {
    hide Blaming, FirstRemotes, Turned, Opening, ClockAt, Chosen, WaitsAs;
  }

  lemma BirthsOnce(env: Environment, s: System, todo: seq<Query>, t: System, u: System)
    requires Inv(t) && Inv(u) && Sends(env, s, todo, t) && Sends(env, s, todo, u)
    ensures u.conns == t.conns
  {
    hide Inv, Made, Started, Charged, Carried;
    assert |t.conns| == |u.conns| by {
      SameNumber(env, s, OpenHandles(s), |todo|, t, u);
    }
    forall i | 0 <= i < |t.conns| ensures u.conns[i] == t.conns[i] {
      if i < |s.conns| {
        assert t.conns[i] == s.conns[i] && u.conns[i] == s.conns[i];
      } else {
        BornOnce(env, s, todo, t, u, i);
      }
    }
  }

  lemma SameNumber(env: Environment, s: System, used: set<int>, count: nat, t: System, u: System)
    requires Made(env, s, used, count, t) && Made(env, s, used, count, u)
    ensures |t.conns| == |u.conns|
  {
    hide Opening;
  }

  lemma BornOnce(env: Environment, s: System, todo: seq<Query>, t: System, u: System, i: nat)
    requires Inv(t) && Inv(u) && Sends(env, s, todo, t) && Sends(env, s, todo, u)
    requires |s.conns| <= i < |t.conns| == |u.conns|
    ensures u.conns[i] == t.conns[i]
  {
    hide Inv, Made, Started, Charged, Carried, OpenHandles;
    OpenedOnce(env, s, OpenHandles(s), |todo|, t, u, i);
    CarriedOnce(env, s, OpenHandles(s), todo, t, u, i);
  }

  lemma CarriedOnce(env: Environment, s: System, used: set<int>, todo: seq<Query>, t: System, u: System, i: nat)
    requires Started(env, s, t) && Charged(env, s, used, t) && Carried(env, s, used, todo, t)
    requires Started(env, s, u) && Charged(env, s, used, u) && Carried(env, s, used, todo, u)
    requires |s.conns| <= i < |t.conns| == |u.conns|
    ensures var c, d := t.conns[i], u.conns[i];
            c.buffer == d.buffer && c.query == d.query && c.deadline == d.deadline && c.remote == d.remote
  {
    hide Blaming, FirstRemotes, Turned, Opening, ClockAt, Chosen, WaitsAs, SameRecord;
  }

  /** What a connection is like on its socket, if it has one. */
  lemma OpenedOnce(env: Environment, s: System, used: set<int>, count: nat, t: System, u: System, i: nat)
    requires Inv(t) && Inv(u) && Made(env, s, used, count, t) && Made(env, s, used, count, u)
    requires Started(env, s, t) && Started(env, s, u) && |s.conns| <= i < |t.conns| == |u.conns|
    ensures var c, d := t.conns[i], u.conns[i];
            && c.state == d.state && c.socket == d.socket
            && c.read == d.read && c.write == d.write && c.exception == d.exception
  {
    SocketShapes(t, i);
    SocketShapes(u, i);
    hide Inv, Opening, ClockAt, Writes, Reads;
  }

  lemma SocketShapes(t: System, i: nat)
    requires Inv(t) && i < |t.conns|
    ensures Shaped(t.conns[i])
  {
    assert Agrees(t.loop, i, t.conns[i]);
  }

  lemma ToldOnce(env: Environment, s: System, id: nat, a: Action, o: Outcome, t: System, u: System)
    requires id < |s.conns| && s.conns[id].socket.Some? && Inv(t) && Inv(u)
    requires Told(env, s, id, a, o, t) && Told(env, s, id, a, o, u)
    ensures u == t
  {
    hide Inv, Sends, Recorded, Closes;
    if Closes(a, o) {
      SendsOnce(env, Recorded(s, id, a, o), s.queue, t, u);
    } else {
      LoopTold(t, u);
    }
  }

  lemma AskedOnly(env: Environment, s: System, q: Query, t: System, u: System)
    requires Inv(t) && Inv(u) && Asked(env, s, q, t) && Asked(env, s, q, u)
    ensures u == t
  {
    hide Inv, Sends;
    if |s.pool| < s.limit {
      SendsOnce(env, s.(arrivals := s.arrivals + [q]), [q] + s.queue, t, u);
    }
  }

  lemma LeavesOnce(env: Environment, s: System, e: Event, t: System, u: System)
    requires Inv(t) && Inv(u) && Leaves(env, s, e, t) && Leaves(env, s, e, u)
    ensures u == t
  {
    hide Inv, Told, Asked, Called, Answer;
    if NoneCalled(s, e) {
      if e.Readable? && e.handle in s.servers && e.outcome.request.Some? {
        AskedOnly(env, s, e.outcome.request.value, t, u);
      } else if e.Retire? {
        LoopTold(t, u);
      }
    } else {
      var i: nat :| i < |s.conns| && Called(s, e, i).Some?;
      ToldOnce(env, s, i, Called(s, e, i).value, Answer(e), t, u);
    }
  }

  /**
   * The whole program, event by event, without handlers, registrations and
   * mutual recursion: what is told here is what it does, and nothing is left open.
   */
  lemma StepIs(env: Environment, s: System, e: Event, t: System)
    requires Inv(s) && Admissible(e)
    ensures t == Step(env, s, e) <==> Inv(t) && Leaves(env, s, e, t)
  {
    hide Inv, Evolves, Step, Leaves, Admissible;
    StepLeaves(env, s, e);
    if Inv(t) && Leaves(env, s, e, t) {
      LeavesOnce(env, s, e, t, Step(env, s, e));
    }
  }

  // ------------------------------------------------ each connection

  lemma ToldOthers(env: Environment, s: System, id: nat, a: Action, o: Outcome, t: System, i: nat)
    requires id < |s.conns| && s.conns[id].socket.Some? && Told(env, s, id, a, o, t) && i < |s.conns|
    ensures i < |t.conns| && t.conns[i] == if i == id then After(s.conns[id], a, o) else s.conns[i]
  {
    var r := Recorded(s, id, a, o);
    assert r.conns[i] == if i == id then After(s.conns[id], a, o) else s.conns[i];
    hide Made, Started, Charged, Carried, After, Closes, Recorded;
    if Closes(a, o) {
      assert r.conns[i] == t.conns[i];
    }
  }

  /** Any two that an event calls are one. */
  lemma CalledOnce(s: System, e: Event, i: nat, j: nat)
    requires Inv(s) && i < |s.conns| && j < |s.conns| && Called(s, e, i).Some? && Called(s, e, j).Some?
    ensures i == j
  {
    SocketShapes(s, i);
    SocketShapes(s, j);
    assert Apart(s);
    hide Inv;
  }

  lemma NobodyCalled(env: Environment, s: System, e: Event)
    requires Inv(s) && Admissible(e) && NoneCalled(s, e)
    ensures s.conns <= Step(env, s, e).conns
  {
    NobodyTold(env, s, e);
    hide Inv, Evolves, Step, Made, Started, Charged, Carried, Admissible, NoneCalled;
  }

  /**
   * Whatever the event, a connection is called at most by one member, and does
   * what that does with TLS's answer; all others stay as they are.
   */
  lemma ConnectionAfter(env: Environment, s: System, e: Event, i: nat)
    requires Inv(s) && Admissible(e) && i < |s.conns|
    ensures Called(s, e, i).Some? ==> s.conns[i].socket.Some?
    ensures var t := Step(env, s, e);
            i < |t.conns| && t.conns[i]
                             == if Called(s, e, i).Some? then After(s.conns[i], Called(s, e, i).value, Answer(e))
                                else s.conns[i]
  {
    hide Inv, Evolves, Step, Told, After, Called, Admissible;
    if j: nat :| j < |s.conns| && Called(s, e, j).Some? {
      CalledTold(env, s, e, j);
      ToldOthers(env, s, j, Called(s, e, j).value, Answer(e), Step(env, s, e), i);
      if Called(s, e, i).Some? {
        CalledOnce(s, e, i, j);
      }
    } else {
      assert NoneCalled(s, e);
      NobodyCalled(env, s, e);
      assert Step(env, s, e).conns[i] == s.conns[i];
    }
  }

  // ------------------------------------------------ what is written

  /** A connection that has not sent its request has the whole of it in its buffer. */
  predicate Laden(c: Connection) {
    c.query.Some? ==>
      && (c.state.CONNECTING? ==> c.buffer == c.query.value.request)
      && (c.state.OPEN? ==> c.buffer == c.query.value.request || c.buffer == [])
  }

  predicate Loaded(s: System) {
    forall i :: 0 <= i < |s.conns| ==> Laden(s.conns[i])
  }

  /** So what is written is the request, octet for octet. */
  lemma WrittenWhole(s: System, i: nat, h: int)
    requires Inv(s) && Loaded(s) && i < |s.conns| && s.conns[i].state.OPEN? && s.conns[i].write == Write(h)
    ensures s.conns[i].socket == Some(h) && s.conns[i].query == Some(s.attempts[i])
    ensures s.conns[i].buffer == s.attempts[i].request != []
  {
    SocketShapes(s, i);
    hide Wired, Replied;
  }

  lemma CalledLaden(s: System, e: Event, i: nat)
    requires Inv(s) && i < |s.conns| && Laden(s.conns[i]) && Called(s, e, i).Some? && s.conns[i].socket.Some?
    ensures Laden(After(s.conns[i], Called(s, e, i).value, Answer(e)))
  {
    hide Inv;
  }

  /** What sending adds is laden. */
  lemma SendsLaden(env: Environment, s: System, todo: seq<Query>, t: System, i: nat)
    requires Sends(env, s, todo, t) && |s.conns| <= i < |t.conns|
    ensures Laden(t.conns[i])
  {
    hide Made, Started, Charged, OpenHandles, Opening, SameRecord;
  }

  lemma LeavesLaden(env: Environment, s: System, e: Event, t: System, i: nat)
    requires Leaves(env, s, e, t) && |s.conns| <= i < |t.conns|
    ensures Laden(t.conns[i])
  {
    hide Called, Answer, Sends, Laden, After, Closes;
    if NoneCalled(s, e) {
      if e.Readable? && |s.pool| < s.limit && e.outcome.request.Some? {
        var q := e.outcome.request.value;
        SendsLaden(env, s.(arrivals := s.arrivals + [q]), [q] + s.queue, t, i);
      }
    } else {
      var j: nat :| j < |s.conns| && Called(s, e, j).Some?;
      SendsLaden(env, Recorded(s, j, Called(s, e, j).value, Answer(e)), s.queue, t, i);
    }
  }

  lemma StepLoads(env: Environment, s: System, e: Event)
    requires Inv(s) && Admissible(e) && Loaded(s)
    ensures Loaded(Step(env, s, e))
  {
    var t := Step(env, s, e);
    StepLeaves(env, s, e);
    hide Inv, Evolves, Step, Leaves, Called, Answer, Laden, After, Admissible;
    forall i | 0 <= i < |t.conns| ensures Laden(t.conns[i]) {
      if i < |s.conns| {
        ConnectionAfter(env, s, e, i);
        if Called(s, e, i).Some? {
          CalledLaden(s, e, i);
        }
      } else {
        LeavesLaden(env, s, e, t, i);
      }
    }
  }

  lemma {:induction false} RunLoads(env: Environment, s: System, events: seq<Event>)
    requires Inv(s) && AllAdmissible(events) && Loaded(s)
    ensures Loaded(Run(env, s, events))
    decreases events
  {
    hide Inv, Evolves, Step, Admissible, Loaded;
    if events != [] {
      StepLoads(env, s, events[0]);
      RunLoads(env, Step(env, s, events[0]), events[1..]);
    }
  }

  // ------------------------------------------------ runs

  /** What a run from a start keeps to, whatever happened in it. */
  ghost predicate Kept(servers: set<int>, configured: seq<Forwarder>, timeout: nat, limit: nat, clock: nat,
                       env: Environment, events: seq<Event>, t: System)
    requires timeout >= 1 && AllAdmissible(events)
  {
    StartHolds(servers, configured, timeout, limit, clock);
    && Orderly(t) && Loaded(t)
    && t.configured == configured && t.timeout == timeout && t.limit == limit
    && t.arrivals == Requests(servers, events)
    && t.replies == Deliveries(env, Start(servers, configured, timeout, limit, clock), events)
    && forall i :: 0 <= i < |t.conns| ==> clock + timeout <= t.conns[i].deadline <= t.clock + timeout
  }

  /**
   * For every configuration, environment and run: the requests that listening
   * sockets handed over, all of them and in order, are those tried followed by
   * those that wait, and what is written for one is the request; the valid
   * packets that open connections read are the replies, each to the addresses of
   * its own request and at most one each; and every connection has the timeout.
   */
  lemma EveryRun(servers: set<int>, configured: seq<Forwarder>, timeout: nat, limit: nat, clock: nat,
                 env: Environment, events: seq<Event>)
    requires timeout >= 1 && AllAdmissible(events)
    ensures Inv(Start(servers, configured, timeout, limit, clock))
    ensures Kept(servers, configured, timeout, limit, clock, env, events,
                 Run(env, Start(servers, configured, timeout, limit, clock), events))
  {
    StartHolds(servers, configured, timeout, limit, clock);
    var s := Start(servers, configured, timeout, limit, clock);
    assert s.conns == [] && s.arrivals == [] && s.replies == [] && s.clock == clock && s.servers == servers;
    var t := Run(env, s, events);
    assert Evolves(s, t);
    DeadlinesWithin(t);
    hide Inv, Run, Orderly, AllAdmissible;
    RunExchanges(env, s, events);
    RunLoads(env, s, events);
    InvOrderly(t);
  }

  lemma DeadlinesWithin(t: System)
    requires Inv(t)
    ensures forall i :: 0 <= i < |t.conns| ==> t.conns[i].deadline <= t.clock + t.timeout
  {
  }

  /** The first connection gives up the whole timeout after the clock it read. */
  lemma FirstDeadline(servers: set<int>, configured: seq<Forwarder>, timeout: nat, limit: nat, clock: nat,
                      env: Environment, h: int, o: Outcome)
    requires timeout >= 1 && limit >= 1 && Admissible(Readable(h, o)) && h in servers && o.request.Some?
    ensures Inv(Start(servers, configured, timeout, limit, clock))
    ensures var t := Step(env, Start(servers, configured, timeout, limit, clock), Readable(h, o));
            |t.conns| >= 1 && t.conns[0].deadline == Max(clock, env(0).clock) + timeout
  {
    StartHolds(servers, configured, timeout, limit, clock);
    var s := Start(servers, configured, timeout, limit, clock);
    var q := o.request.value;
    assert |s.pool| < s.limit && s.conns == [] && s.timeout == timeout && s.clock == clock && h in s.servers;
    hide Inv, Evolves, Step, Start, Sends, Admissible;
    ServerAsked(env, s, h, o);
    FirstStarted(env, s.(arrivals := s.arrivals + [q]), [q] + s.queue, Step(env, s, Readable(h, o)));
  }

  lemma FirstStarted(env: Environment, s: System, todo: seq<Query>, t: System)
    requires Sends(env, s, todo, t) && s.conns == [] && todo != []
    ensures |t.conns| >= 1 && t.conns[0].deadline == Max(s.clock, env(0).clock) + s.timeout
  {
    hide Charged, Carried, OpenHandles, WaitsAs;
    assert ClockAt(env, s.clock, 0, 0) == s.clock;
  }

  /** Letting go of the servers takes their handlers and handles, and nothing else. */
  lemma RetireLetsGo(env: Environment, s: System)
    requires Inv(s)
    ensures var t := Step(env, s, Retire);
            && t == s.(servers := {}, loop := t.loop)
            && (forall h :: h in t.loop.readFns <==> h in s.loop.readFns && h !in s.servers)
            && (forall h :: h in t.loop.readFns ==>
                  t.loop.readFns[h] == s.loop.readFns[h] && t.loop.readFns[h].callback.Bound?)
            && t.loop.writeFns == s.loop.writeFns && t.loop.exceptFns == s.loop.exceptFns
  {
    forall h {
      ServersServe(s, h);
    }
    hide Inv, Evolves;
  }
}
