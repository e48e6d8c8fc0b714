// A poll reports once on a handle, and then its handlers run one after another
// (src/loop.cpp:17-31): whose they still are, when the first of them closes the
// connection and the sending that this sets off reuses the handle.

module Reports {
  import opened HandlerMaps
  import opened Connections
  import opened Systems
  import opened Invariants
  import opened Runs
  import opened Sending
  import opened Executions

  // ------------------------------------------------ which connection opens next

  /** The handles that the kernel has out. */
  function OpenHandles(s: System): set<int> {
    s.servers + set i | 0 <= i < |s.conns| && s.conns[i].socket.Some? :: s.conns[i].socket.value
  }

  lemma InUseIsOpen(s: System, h: int)
    ensures InUse(s, h) <==> h in OpenHandles(s)
  {
  }

  /** A connection made with these answers comes out of its constructor open. */
  predicate Opens(b: Birth, used: set<int>) {
    b.tls && b.socket.Some? && b.socket.value !in used && !b.connect.Fatal? && !b.connect.Hangup?
  }

  /** Of connections n to n + count - 1, the first whose answers let it open, or n + count. */
  function FirstOpening(env: Environment, used: set<int>, n: nat, count: nat): (f: nat)
    ensures n <= f <= n + count
    ensures forall i: nat :: n <= i < f ==> !Opens(env(i), used)
    ensures f < n + count ==> Opens(env(f), used)
    decreases count
  {
    if count == 0 || Opens(env(n), used) then n else FirstOpening(env, used, n + 1, count - 1)
  }

  /** The connection that opens when `count` requests are at hand: none without forwarders. */
  function Opening(env: Environment, s: System, used: set<int>, count: nat): (f: nat)
    ensures |s.conns| <= f <= |s.conns| + count
  {
    if s.forwarders == [] then |s.conns| + count else FirstOpening(env, used, |s.conns|, count)
  }

  /** One connection for each request at hand, up to the first that opens, which is the only one open. */
  predicate Made(env: Environment, s: System, used: set<int>, count: nat, t: System) {
    var f := Opening(env, s, used, count);
    && |t.conns| == (if f < |s.conns| + count then f + 1 else f)
    && (forall i :: |s.conns| <= i < |t.conns| && i != f ==> t.conns[i].socket.None?)
    && (f < |s.conns| + count ==>
          && t.conns[f].socket == env(f).socket
          && t.conns[f].state == if env(f).connect.Success? then OPEN else CONNECTING)
  }

  /** One attempt: what the constructor and send make of these answers. */
  lemma TriedOne(env: Environment, s: System, data: seq<Bytes.byte>)
    ensures var n, made := |s.conns|, Construct(env, s);
            var sent := Send(made.loop, n, made.conns[n], data);
            && made.conns[..n] == s.conns && made.servers == s.servers && |made.forwarders| == |s.forwarders|
            && (sent.ok <==> s.forwarders != [] && Opens(env(n), OpenHandles(s)))
            && (sent.ok ==> sent.conn.socket == env(n).socket
                            && sent.conn.state == if env(n).connect.Success? then OPEN else CONNECTING)
            && (!sent.ok ==> made.conns[n].socket.None?)
  {
  }

  lemma SameHandles(s: System, t: System)
    requires t.servers == s.servers && |s.conns| <= |t.conns| && t.conns[..|s.conns|] == s.conns
    requires forall i :: |s.conns| <= i < |t.conns| ==> t.conns[i].socket.None?
    ensures OpenHandles(t) == OpenHandles(s)
  {
    forall h ensures h in OpenHandles(t) <==> h in OpenHandles(s) {
      InUseIsOpen(s, h);
      InUseIsOpen(t, h);
      assert InUse(s, h) ==> InUse(t, h) by {
        if i :| 0 <= i < |s.conns| && s.conns[i].socket == Some(h) {
          assert t.conns[i] == s.conns[i];
        }
      }
    }
  }

  lemma {:induction false} SendRequestMakes(env: Environment, s: System, q: Query)
    ensures Made(env, s, OpenHandles(s), |s.queue| + 1, SendRequest(env, s, q))
    ensures s.conns <= SendRequest(env, s, q).conns
    decreases |s.queue|, 1
  {
    hide Construct, Send, Opens, OpenHandles;
    var n, tried := |s.conns|, s.(attempts := s.attempts + [q]);
    var made := Construct(env, tried);
    TriedOne(env, tried, q.request);
    SameHandles(s, tried);
    if !Send(made.loop, n, made.conns[n], q.request).ok {
      SameHandles(s, made);
      DequeueMakes(env, made);
    }
  }

  lemma {:induction false} DequeueMakes(env: Environment, s: System)
    ensures Made(env, s, OpenHandles(s), |s.queue|, Dequeue(env, s))
    ensures s.conns <= Dequeue(env, s).conns
    decreases |s.queue|, 0
  {
    if s.queue != [] {
      var t := s.(queue := s.queue[1..]);
      SameHandles(s, t);
      SendRequestMakes(env, t, s.queue[0]);
    }
  }

  // ------------------------------------------------ what a new connection waits for, and how long

  /** TLS answers after which a connection that was given its request waits to write, or to read. */
  predicate Writes(r: Result) {
    r.Success? || r.NeedWrite?
  }

  predicate Reads(r: Result) {
    r.Success? || r.NeedRead?
  }

  /** The clock once connections n to m - 1 are made. */
  function ClockAt(env: Environment, clock: int, n: nat, m: nat): int
    requires n <= m
  {
    if n == m then clock else Max(ClockAt(env, clock, n, m - 1), env(m - 1).clock)
  }

  /** What connection `i` is like when it came up on a socket and was given its request. */
  predicate WaitsAs(c: Connection, r: Result) {
    c.socket.Some? ==>
      && c.write == (if Writes(r) then Write(c.socket.value) else Moved)
      && c.read == (if Reads(r) then Read(c.socket.value) else Moved)
  }

  /** Every connection made since `s` waits as TLS told it, for the whole timeout. */
  ghost predicate Started(env: Environment, s: System, t: System) {
    && |s.conns| <= |t.conns| && t.timeout == s.timeout && t.clock == ClockAt(env, s.clock, |s.conns|, |t.conns|)
    && forall i :: |s.conns| <= i < |t.conns| ==>
         && WaitsAs(t.conns[i], env(i).connect)
         && t.conns[i].deadline == ClockAt(env, s.clock, |s.conns|, i + 1) + s.timeout
  }

  lemma {:induction false} ClockInParts(env: Environment, clock: int, n: nat, m: nat, k: nat)
    requires n <= m <= k
    ensures ClockAt(env, clock, n, k) == ClockAt(env, ClockAt(env, clock, n, m), m, k)
    decreases k
  {
    if m < k {
      ClockInParts(env, clock, n, m, k - 1);
    }
  }

  lemma StartedInParts(env: Environment, s: System, t: System, u: System)
    requires Started(env, s, t) && Started(env, t, u)
    requires forall i :: |s.conns| <= i < |t.conns| ==> u.conns[i] == t.conns[i]
    ensures Started(env, s, u)
  {
    ClockInParts(env, s.clock, |s.conns|, |t.conns|, |u.conns|);
    forall i | |s.conns| <= i < |u.conns|
      ensures WaitsAs(u.conns[i], env(i).connect)
      ensures u.conns[i].deadline == ClockAt(env, s.clock, |s.conns|, i + 1) + s.timeout
    {
      if i < |t.conns| {
        assert u.conns[i] == t.conns[i];
      } else {
        ClockInParts(env, s.clock, |s.conns|, |t.conns|, i + 1);
      }
    }
  }

  /** What the constructor leaves waits for what TLS asked, and otherwise only to read. */
  lemma BornWaits(s: System, now: int, b: Birth)
    requires Wired(s)
    ensures var c := Born(s, now, b).conn;
            c.socket.Some? ==>
              && c.write == (if b.connect.NeedWrite? then Write(c.socket.value) else Moved)
              && c.read == (if b.connect.NeedWrite? then Moved else Read(c.socket.value))
              && (c.state.OPEN? <==> b.connect.Success?) && (b.connect.NeedRead? || Writes(b.connect))
  {
    if b.tls && s.forwarders != [] && b.socket.Some? && !InUse(s, b.socket.value) {
      var id, h := |s.conns|, b.socket.value;
      var c := Connection(CONNECTING, None, Moved, Moved, Moved, [], now + s.timeout, s.forwarders[0].remote, None);
      UnusedIsFree(s, h);
      hide Wired, Open, InUse, BoundAt, SameElsewhere, Free;
      OpenSteps(s.loop, id, c, h, b.connect);
      assert Born(s, now, b) == Open(s.loop, id, c, h, b.connect);
    }
  }

  lemma SentWaits(l: Handlers, id: nat, c: Connection, data: seq<Bytes.byte>, r: Result)
    requires Agrees(l, id, c) && c.socket.Some? && c.buffer == [] && data != []
    requires c.write == (if r.NeedWrite? then Write(c.socket.value) else Moved)
    requires c.read == (if r.NeedWrite? then Moved else Read(c.socket.value))
    requires (c.state.CONNECTING? || c.state.OPEN?) && (c.state.OPEN? <==> r.Success?) && (r.NeedRead? || Writes(r))
    ensures WaitsAs(Send(l, id, c, data).conn, r) && Send(l, id, c, data).conn.deadline == c.deadline
  {
    SendSteps(l, id, c, data);
  }

  /** One attempt, whether the connection joins the pool or not. */
  lemma OneStarts(env: Environment, s: System, q: Query)
    requires Core(s, {}) && q.request != []
    ensures var id, made := |s.conns|, Construct(env, s.(attempts := s.attempts + [q]));
            var sent := Send(made.loop, id, made.conns[id], q.request);
            Started(env, s, if sent.ok then Join(made, id, sent, q) else made)
  {
    var id, tried := |s.conns|, s.(attempts := s.attempts + [q]);
    TriedWired(s, q);
    hide Core, Wired, Born, Send, Construct, Blame, Started, WaitsAs;
    ConstructGrows(env, s, q);
    BornSends(tried, Max(s.clock, env(id).clock), env(id), q.request);
    var made := Construct(env, tried);
    var sent := Send(made.loop, id, made.conns[id], q.request);
    if sent.ok {
      WaitsAlike(sent.conn, q, env(id).connect);
      AddedStarts(env, s, Join(made, id, sent, q), sent.conn.(query := Some(q)));
    } else {
      AddedStarts(env, s, made, made.conns[id]);
    }
  }

  lemma WaitsAlike(c: Connection, q: Query, r: Result)
    requires WaitsAs(c, r)
    ensures WaitsAs(c.(query := Some(q)), r)
  {
  }

  /** The constructor and send. */
  lemma BornSends(s: System, now: int, b: Birth, data: seq<Bytes.byte>)
    requires Wired(s) && data != []
    ensures var e := Born(s, now, b);
            var sent := Send(e.loop, |s.conns|, e.conn, data);
            var c := if sent.ok then sent.conn else e.conn;
            WaitsAs(c, b.connect) && c.deadline == now + s.timeout
  {
    hide Wired, Fits, Born, Agrees, SameElsewhere, Send;
    BornFits(s, now, b);
    BornWaits(s, now, b);
    var e := Born(s, now, b);
    FitsParts(s, e.loop, e.conn);
    SendSteps(e.loop, |s.conns|, e.conn, data);
    if e.conn.socket.Some? {
      SentWaits(e.loop, |s.conns|, e.conn, data, b.connect);
    }
  }

  lemma AddedStarts(env: Environment, s: System, t: System, c: Connection)
    requires t.conns == s.conns + [c] && WaitsAs(c, env(|s.conns|).connect)
    requires t.timeout == s.timeout && t.clock == Max(s.clock, env(|s.conns|).clock)
    requires c.deadline == t.clock + s.timeout
    ensures Started(env, s, t)
  {
    assert ClockAt(env, s.clock, |s.conns|, |s.conns|) == s.clock;
  }

  lemma {:induction false} SendRequestStarts(env: Environment, s: System, q: Query)
    requires Core(s, {}) && OneShort(s) && q.request != []
    ensures Started(env, s, SendRequest(env, s, q))
    decreases |s.queue|, 1
  {
    hide Core, Evolves, Started;
    TryOne(env, s, q);
    OneStarts(env, s, q);
    var id, tried := |s.conns|, s.(attempts := s.attempts + [q]);
    var made := Construct(env, tried);
    ConstructOrder(env, tried);
    if !Send(made.loop, id, made.conns[id], q.request).ok {
      DequeueStarts(env, made);
      DequeueOnlyNewer(env, made);
      StartedInParts(env, s, made, Dequeue(env, made));
    }
  }

  lemma {:induction false} DequeueStarts(env: Environment, s: System)
    requires Core(s, {}) && OneShort(s)
    ensures Started(env, s, Dequeue(env, s))
    decreases |s.queue|, 0
  {
    if s.queue != [] {
      CoreParts(s, {});
      hide Core, Evolves;
      QueueKeeps(s, s.queue[1..]);
      SendRequestStarts(env, s.(queue := s.queue[1..]), s.queue[0]);
    }
  }

  /** A callback runs on a connection, and then what waits may be sent. */
  lemma ActStarts(env: Environment, s: System, id: nat, a: Action, o: Outcome)
    requires Inv(s) && id < |s.conns| && Fitting(a, s.conns[id].state) && Ready(s, id, a)
    ensures Started(env, s, Act(env, s, id, a, o))
  {
    EffectSteps(s, id, a, o);
    ActFinishes(env, s, id, a, o);
    var u, e := Passed(s, id, a, o), Effected(s, id, a, o);
    hide Inv, Act, Effected, Passed, Stepped, Started, Core, Dequeue;
    if e.due {
      var x := Settle(u, id, e).(pool := Erased(s.pool, id), fired := s.fired + [id]);
      DueCore(s, id, a, o);
      DequeueStarts(env, x);
      StartedAlike(env, s, x, Finish(env, u, id, e));
    } else {
      NoneStarted(env, s, Finish(env, u, id, e));
    }
  }

  lemma NoneStarted(env: Environment, s: System, t: System)
    requires |t.conns| == |s.conns| && t.timeout == s.timeout && t.clock == s.clock
    ensures Started(env, s, t)
  {
  }

  lemma StartedAlike(env: Environment, s: System, x: System, t: System)
    requires |x.conns| == |s.conns| && x.timeout == s.timeout && x.clock == s.clock && Started(env, x, t)
    ensures Started(env, s, t)
  {
  }

  /** A member closed its connection: once that is out of the pool, there is room for one. */
  lemma DueCore(s: System, id: nat, a: Action, o: Outcome)
    requires Inv(s) && id < |s.conns| && Fitting(a, s.conns[id].state) && Ready(s, id, a) && Effected(s, id, a, o).due
    ensures var e := Effected(s, id, a, o);
            var x := Settle(Passed(s, id, a, o), id, e).(pool := Erased(s.pool, id), fired := s.fired + [id]);
            Core(x, {}) && OneShort(x)
  {
    EffectSteps(s, id, a, o);
    var u, e := Passed(s, id, a, o), Effected(s, id, a, o);
    var v := Settle(u, id, e);
    SettledCore(s, id, a, o);
    ErasedFrom(s.pool, id);
    ShutdownKeeps(v, id);
    hide Core;
  }

  lemma SettledCore(s: System, id: nat, a: Action, o: Outcome)
    requires Inv(s) && id < |s.conns| && Fitting(a, s.conns[id].state) && Ready(s, id, a) && Effected(s, id, a, o).due
    ensures var e := Effected(s, id, a, o);
            var v := Settle(Passed(s, id, a, o), id, e);
            && Core(v, {id}) && id in s.pool && v.conns[id] == e.conn && e.conn.state.CLOSED? && e.conn.query.Some?
            && v.pool == s.pool && v.queue == s.queue && v.fired == s.fired && v.limit == s.limit
  {
    EffectSteps(s, id, a, o);
    var e := Effected(s, id, a, o);
    assert id in s.pool && e.conn.query.Some?;
    if a.Receive? && o.result.Success? && o.data != [] {
      OpenParts(s, id);
      hide Core, Effected, Stepped;
      SettleThenReply(s, id, e, s.conns[id].query.value, o.data);
    } else {
      hide Core, Effected, Stepped;
      SettleKeeps(s, id, e);
    }
  }

  // ------------------------------------------------ who closes, and what opens then

  /** A connection closed, and m_shutdown is due: its handle is free for what waits. */
  lemma FinishMakes(env: Environment, s: System, id: nat, e: Effect)
    requires Apart(s) && id < |s.conns| && s.conns[id].socket.Some? && e.conn.socket.None? && e.due
    ensures Made(env, s, OpenHandles(s) - {s.conns[id].socket.value}, |s.queue|, Finish(env, s, id, e))
  {
    hide Dequeue, Erased, OpenHandles;
    var settled := Settle(s, id, e);
    var u := settled.(pool := Erased(settled.pool, id), fired := settled.fired + [id]);
    HandleFreed(s, u, id);
    DequeueMakes(env, u);
  }

  lemma HandleFreed(s: System, t: System, id: nat)
    requires Apart(s) && id < |s.conns| && s.conns[id].socket.Some?
    requires t.servers == s.servers && |t.conns| == |s.conns| && t.conns[id].socket.None?
    requires forall i :: 0 <= i < |s.conns| && i != id ==> t.conns[i].socket == s.conns[i].socket
    ensures OpenHandles(t) == OpenHandles(s) - {s.conns[id].socket.value}
  {
    var h := s.conns[id].socket.value;
    forall k ensures InUse(t, k) <==> InUse(s, k) && k != h {
      if i :| 0 <= i < |s.conns| && s.conns[i].socket == Some(k) && k != h {
        assert t.conns[i].socket == Some(k);
      }
    }
    forall k ensures k in OpenHandles(t) <==> k in OpenHandles(s) && k != h {
      InUseIsOpen(s, k);
      InUseIsOpen(t, k);
    }
  }

  /** A connection that a member does not close waits to write afterwards, when TLS answers like this. */
  predicate KeepsWriting(c: Connection, a: Action, o: Outcome) {
    match a
    case Handshake => o.result.NeedWrite? || (o.result.Success? && c.buffer != [])
    case Receive => if o.result.Success? && o.data != [] then o.goodbye.NeedWrite? else c.write != Moved
    case Transmit => !o.result.Success? && c.write != Moved
    case Goodbye => o.result.NeedWrite?
    case Abort => false
  }

  lemma EffectWrites(s: System, id: nat, a: Action, o: Outcome)
    requires Inv(s) && id < |s.conns| && Fitting(a, s.conns[id].state) && Ready(s, id, a) && !Closes(a, o)
    ensures Effected(s, id, a, o).conn.write != Moved <==> KeepsWriting(s.conns[id], a, o)
  {
    var c := s.conns[id];
    assert Agrees(s.loop, id, c);
    assert c.query.Some?;
    hide Inv, Connect, Incoming, Outgoing, SayGoodbye, Except, Shutdown, BoundAt, SameElsewhere, Free;
    match a
    case Handshake => ConnectSteps(s.loop, id, c, o.result);
    case Receive =>
      if o.result.Success? && o.data != [] {
        ShutdownSteps(s.loop, id, c, o.goodbye);
      } else {
        IncomingSteps(s.loop, id, c, o.result);
      }
    case Transmit => OutgoingSteps(s.loop, id, c, o.result);
    case Goodbye => GoodbyeSteps(s.loop, id, c, o.result);
    case Abort =>
  }

  /**
   * A callback closes its connection exactly on these answers, and then opens
   * this one; otherwise it says what it waits for. Other connections stay.
   */
  lemma ActMakes(env: Environment, s: System, id: nat, a: Action, o: Outcome)
    requires Inv(s) && id < |s.conns| && Fitting(a, s.conns[id].state) && Ready(s, id, a)
    ensures s.conns[id].socket.Some?
    ensures var t, h := Act(env, s, id, a, o), s.conns[id].socket.value;
            && |s.conns| <= |t.conns|
            && (forall i :: 0 <= i < |s.conns| && i != id ==> t.conns[i] == s.conns[i])
            && (t.conns[id].state.CLOSED? <==> Closes(a, o))
            && (Closes(a, o) ==> Made(env, s, OpenHandles(s) - {h}, |s.queue|, t) && Started(env, s, t))
            && (!Closes(a, o) ==> (t.conns[id].write != Moved <==> KeepsWriting(s.conns[id], a, o)))
  {
    hide *;
    EffectSteps(s, id, a, o);
    ActStarts(env, s, id, a, o);
    if !Closes(a, o) {
      EffectWrites(s, id, a, o);
    }
    ActFinishes(env, s, id, a, o);
    Concluded(env, s, id, Passed(s, id, a, o), Effected(s, id, a, o));
  }

  /** What opens depends on the handles out, the forwarders, and the number made so far. */
  lemma SameMade(env: Environment, s: System, u: System, used: set<int>, t: System)
    requires u == s.(replies := u.replies)
    ensures Made(env, s, used, |s.queue|, t) == Made(env, u, used, |u.queue|, t)
  {
  }

  lemma Concluded(env: Environment, s: System, id: nat, u: System, e: Effect)
    requires Inv(s) && id < |s.conns| && s.conns[id].socket.Some?
    requires u == s.(replies := u.replies)
    requires e.conn.state.CLOSED? ==> e.conn.socket.None? && e.due
    ensures var t, h := Finish(env, u, id, e), s.conns[id].socket.value;
            && |s.conns| <= |t.conns| && t.conns[id] == e.conn
            && (forall i :: 0 <= i < |s.conns| && i != id ==> t.conns[i] == s.conns[i])
            && (e.conn.state.CLOSED? ==> Made(env, s, OpenHandles(s) - {h}, |s.queue|, t))
  {
    assert Apart(u);
    SameHandles(s, u);
    hide OpenHandles, Finish, Inv, Apart, Made, Opening;
    var t := Finish(env, u, id, e);
    FinishOthers(env, u, id, e);
    forall i | 0 <= i < |s.conns| ensures t.conns[i] == if i == id then e.conn else s.conns[i] {
      assert s.conns[id := e.conn][i] == t.conns[i];
    }
    if e.conn.state.CLOSED? {
      FinishMakes(env, u, id, e);
      SameMade(env, s, u, OpenHandles(s) - {s.conns[id].socket.value}, t);
    }
  }

  // ------------------------------------------------ whom the report reaches

  /** The event runs a handler of `h` that closes its connection. */
  predicate Ends(s: System, e: Event, h: int) {
    match e
    case Readable(k, o) => k == h && h in s.loop.readFns && Ending(s.loop.readFns[h].callback, o)
    case Writable(k, o) => k == h && h in s.loop.writeFns && Ending(s.loop.writeFns[h].callback, o)
    case Failed(k) => k == h && h in s.loop.exceptFns && Ending(s.loop.exceptFns[h], NOTHING)
    case _ => false
  }

  predicate Ending(cb: Callback, o: Outcome) {
    cb.Bound? && Closes(cb.action, o)
  }

  predicate KeepsOn(c: Connection, cb: Callback, o: Outcome) {
    cb.Bound? && KeepsWriting(c, cb.action, o)
  }

  /** The connection on `h`, which the event does not close, waits to write afterwards. */
  predicate WritesAfter(s: System, e: Event, id: nat, h: int)
    requires id < |s.conns|
  {
    match e
    case Readable(k, o) =>
      if k == h && h in s.loop.readFns then KeepsOn(s.conns[id], s.loop.readFns[h].callback, o)
      else s.conns[id].write != Moved
    case Writable(k, o) =>
      if k == h && h in s.loop.writeFns then KeepsOn(s.conns[id], s.loop.writeFns[h].callback, o)
      else s.conns[id].write != Moved
    case _ => s.conns[id].write != Moved
  }

  /** What a callback that is given `h` does to the connection on `h`, and to one on another handle. */
  lemma InvokeMakes(env: Environment, s: System, cb: Callback, o: Outcome, k: int, id: nat, h: int)
    requires Inv(s) && id < |s.conns| && s.conns[id].socket == Some(h) && OwnedBy(s, k, cb)
    requires cb.Bound? ==> Fitting(cb.action, s.conns[cb.id].state) && Ready(s, cb.id, cb.action)
    ensures var t := Invoke(env, s, cb, o);
            && |s.conns| <= |t.conns|
            && (t.conns[id].state.CLOSED? <==> k == h && Ending(cb, o))
            && (k == h && Ending(cb, o) ==> Made(env, s, OpenHandles(s) - {h}, |s.queue|, t) && Started(env, s, t))
            && (k == h && !Ending(cb, o) ==> (t.conns[id].write != Moved <==> KeepsOn(s.conns[id], cb, o)))
            && (k != h ==> t.conns[id] == s.conns[id])
  {
    assert k == h ==> cb == Bound(id, cb.action);
    StillOpen(s, id, h);
    hide Inv, Made, OpenHandles, Act, Closes, OwnedBy, Fitting, Ready, Started, KeepsWriting;
    match cb
    case Serve =>
      if o.request.Some? && |s.pool| < s.limit {
        var arrived := s.(arrivals := s.arrivals + [o.request.value]);
        SendRequestOnlyNewer(env, arrived, o.request.value);
        assert SendRequest(env, arrived, o.request.value).conns[id] == s.conns[id];
      }
    case Bound(i, a) => ActMakes(env, s, i, a, o);
  }

  lemma AbortEnds(s: System, h: int)
    requires Inv(s)
    ensures h in s.loop.exceptFns ==> Ending(s.loop.exceptFns[h], NOTHING)
  {
    BoundFits(s, h);
  }

  /**
   * The connection on a handle closes exactly when the event runs a handler of
   * that handle which does so. Then the sending that follows opens this one.
   */
  lemma StepMakes(env: Environment, s: System, e: Event, id: nat, h: int)
    requires Inv(s) && Admissible(e) && id < |s.conns| && s.conns[id].socket == Some(h)
    ensures var t := Step(env, s, e);
            && |s.conns| <= |t.conns|
            && (t.conns[id].state.CLOSED? <==> Ends(s, e, h))
            && (Ends(s, e, h) ==> Made(env, s, OpenHandles(s) - {h}, |s.queue|, t) && Started(env, s, t))
            && (!Ends(s, e, h) ==> (t.conns[id].write != Moved <==> WritesAfter(s, e, id, h)))
  {
    StillOpen(s, id, h);
    AbortEnds(s, h);
    hide Inv, Made, OpenHandles, Invoke, Ending, Admissible, OwnedBy, Evolves, Fitting, Ready, Started, KeepsOn;
    match e
    case Readable(k, o) =>
      if k in s.loop.readFns {
        HandlersOwned(s, k);
        BoundFits(s, k);
        InvokeMakes(env, s, s.loop.readFns[k].callback, o, k, id, h);
      }
    case Writable(k, o) =>
      if k in s.loop.writeFns {
        HandlersOwned(s, k);
        BoundFits(s, k);
        InvokeMakes(env, s, s.loop.writeFns[k].callback, o, k, id, h);
      }
    case Failed(k) =>
      if k in s.loop.exceptFns {
        HandlersOwned(s, k);
        BoundFits(s, k);
        InvokeMakes(env, s, s.loop.exceptFns[k], NOTHING, k, id, h);
      }
    case Tick(now) =>
    case Retire =>
  }

  /** The connection, made by this event, that holds the handle `h` of the one it closed. */
  predicate Reopens(env: Environment, s: System, h: int) {
    var f := Opening(env, s, OpenHandles(s) - {h}, |s.queue|);
    f < |s.conns| + |s.queue| && env(f).socket == Some(h)
  }

  /**
   * One poll reports on a handle once, but its handlers run one after another.
   * After the first of them ran, the exception handler that a failure in the
   * same report calls is still that of the polled connection exactly if the
   * first did not close it. If it did, it is that of the first connection that
   * can open for the requests that wait, exactly if the kernel answers that one
   * with the same handle, and otherwise there is none. The write handler that
   * POLLOUT calls is the same connection's, if that then waits to write.
   */
  lemma ReportReaches(env: Environment, s: System, e: Event, h: int)
    requires Inv(s) && Admissible(e) && h in s.loop.exceptFns
    ensures s.loop.exceptFns[h].Bound?
    ensures var t, id := Step(env, s, e), s.loop.exceptFns[h].id;
            var f := Opening(env, s, OpenHandles(s) - {h}, |s.queue|);
            && (h in t.loop.exceptFns <==> !Ends(s, e, h) || Reopens(env, s, h))
            && (h in t.loop.exceptFns ==> t.loop.exceptFns[h] == Bound(if Ends(s, e, h) then f else id, Abort))
            && id < |s.conns| <= |t.conns| && (t.conns[id].state.CLOSED? <==> Ends(s, e, h))
            && (h in t.loop.writeFns <==> if Ends(s, e, h) then Reopens(env, s, h) && Writes(env(f).connect)
                                          else WritesAfter(s, e, id, h))
            && (h in t.loop.writeFns ==>
                  && t.loop.writeFns[h].callback.Bound?
                  && t.loop.writeFns[h].callback.id == if Ends(s, e, h) then f else id)
  {
    HandlersOwned(s, h);
    BoundFits(s, h);
    hide Inv, Evolves, Step, Ends, Reopens, Made, Started, WritesAfter, Opening, OpenHandles, Fitting;
    var t, id := Step(env, s, e), s.loop.exceptFns[h].id;
    StepMakes(env, s, e, id, h);
    if !Ends(s, e, h) {
      StillHeld(s, t, id, h);
    } else if Reopens(env, s, h) {
      NewlyHeld(env, s, t, h);
    } else {
      NobodyHolds(env, s, t, id, h);
    }
  }

  lemma StillHeld(s: System, t: System, id: nat, h: int)
    requires Inv(s) && Inv(t) && Evolves(s, t)
    requires id < |s.conns| && s.conns[id].socket == Some(h) && !t.conns[id].state.CLOSED?
    ensures h in t.loop.exceptFns && t.loop.exceptFns[h] == Bound(id, Abort)
    ensures h in t.loop.writeFns <==> t.conns[id].write != Moved
    ensures h in t.loop.writeFns ==> t.loop.writeFns[h].callback == Bound(id, WriteAction(t.conns[id].state))
  {
    assert Agrees(t.loop, id, t.conns[id]);
  }

  lemma NewlyHeld(env: Environment, s: System, t: System, h: int)
    requires Inv(t) && Reopens(env, s, h) && Made(env, s, OpenHandles(s) - {h}, |s.queue|, t) && Started(env, s, t)
    ensures var f := Opening(env, s, OpenHandles(s) - {h}, |s.queue|);
            && f < |t.conns| && t.conns[f].socket == Some(h)
            && t.conns[f].state == (if env(f).connect.Success? then OPEN else CONNECTING)
            && h in t.loop.exceptFns && t.loop.exceptFns[h] == Bound(f, Abort)
            && (h in t.loop.writeFns <==> Writes(env(f).connect))
            && (h in t.loop.writeFns ==> t.loop.writeFns[h].callback == Bound(f, WriteAction(t.conns[f].state)))
  {
    var f := Opening(env, s, OpenHandles(s) - {h}, |s.queue|);
    assert Agrees(t.loop, f, t.conns[f]);
  }

  lemma ClosedHasNone(t: System, id: nat)
    requires Inv(t) && id < |t.conns| && t.conns[id].state.CLOSED?
    ensures t.conns[id].socket.None?
  {
    assert Agrees(t.loop, id, t.conns[id]);
  }

  lemma NobodyHolds(env: Environment, s: System, t: System, id: nat, h: int)
    requires Inv(s) && Inv(t) && Evolves(s, t) && !Reopens(env, s, h)
    requires id < |s.conns| && s.conns[id].socket == Some(h) && t.conns[id].state.CLOSED?
    requires Made(env, s, OpenHandles(s) - {h}, |s.queue|, t)
    ensures h !in t.loop.exceptFns && h !in t.loop.writeFns
  {
    ClosedHasNone(t, id);
    assert Apart(s);
    hide Inv, OpenHandles, Opening, Fitting;
    forall i | 0 <= i < |t.conns| ensures t.conns[i].socket != Some(h) {
      if i < |s.conns| && i != id {
        assert s.conns[i].socket != Some(h);
      }
    }
    HandlersOwned(t, h);
    BoundFits(t, h);
  }

  /**
   * A report that no longer reaches the polled connection does harm: a failure
   * in it closes a connection that was never polled, and demotes its forwarder
   * unless TLS was done at once.
   */
  lemma ReportMisdirected(env: Environment, s: System, e: Event, h: int)
    requires Inv(s) && Admissible(e) && h in s.loop.exceptFns && Ends(s, e, h) && Reopens(env, s, h)
    ensures var t, f := Step(env, s, e), Opening(env, s, OpenHandles(s) - {h}, |s.queue|);
            var u := Step(env, t, Failed(h));
            && |s.conns| <= f < |t.conns| <= |u.conns| && !t.conns[f].state.CLOSED?
            && u.conns[f].state.CLOSED? && f in u.fired
            && (f in u.blamed <==> !env(f).connect.Success?)
            && u.replies == t.replies
  {
    var t, f := Step(env, s, e), Opening(env, s, OpenHandles(s) - {h}, |s.queue|);
    assert OwnedBy(s, h, s.loop.exceptFns[h]);
    StepMakes(env, s, e, s.loop.exceptFns[h].id, h);
    NewlyHeld(env, s, t, h);
    FailureAborts(env, t, f, h);
  }

  /** A failure on the handle of an open connection closes it, with setBad exactly while connecting. */
  lemma FailureAborts(env: Environment, t: System, n: nat, h: int)
    requires Inv(t) && n < |t.conns| && h in t.loop.exceptFns && t.loop.exceptFns[h] == Bound(n, Abort)
    ensures var u := Step(env, t, Failed(h));
            && |t.conns| <= |u.conns| && u.conns[n].state.CLOSED? && n in u.fired && u.replies == t.replies
            && (n in u.blamed <==> t.conns[n].state.CONNECTING?)
  {
    BoundFits(t, h);
    HandlersOwned(t, h);
    StepAborts(env, t, n, h);
    hide Inv, Evolves, Step, Act;
    ActExact(env, t, n, Abort, NOTHING);
    StepMakes(env, t, Failed(h), n, h);
  }
}
